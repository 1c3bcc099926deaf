/** How often the RaptorQ receiver calls its decoder, and how many symbols of a block it counts. */
module RqAttempts {
  import opened Base
  import opened Deliveries
  import opened Wire
  import opened RqBlock
  import opened RqBlockLaws
  import opened RqEntry
  import opened RqTable
  import opened RqSafety
  import RqCodec

  function ArrivalsOf(trace: seq<Datagram>, s: nat): nat {
    if |trace| == 0 then 0
    else ArrivalsOf(trace[..|trace| - 1], s) + if trace[|trace| - 1].serial == s then 1 else 0
  }

  /** Whether the decoder was called for a symbol of block s. */
  function Tried(id: Ideal, d: Datagram, s: nat, e: Env): nat
    requires Takes(id, d) && EnvOk(e)
  {
    if d.serial == s && Result(id, d, e).stats.attempts > id.stats.attempts then 1 else 0
  }

  /** The number of symbols of block s at which the decoder was called. */
  function AttemptsFor(trace: seq<Datagram>, s: nat, src: nat -> seq<Packet>, e: Env): nat
    requires Setting(src, e) && Genuine(trace, src, e.codec)
    decreases |trace|
  {
    if |trace| == 0 then 0
    else
      var before, d := trace[..|trace| - 1], trace[|trace| - 1];
      GenuineLast(trace, src, e.codec);
      var id := ReceiveIdeal(before, src, e);
      DatagramIsTaken(id, d, src, e);
      AttemptsFor(before, s, src, e) + Tried(id, d, s, e)
  }

  // ----- one symbol

  lemma {:induction false} ForwardingTriesNothing(w: World, rows: seq<Packet>, n: nat, e: Env)
    requires WellSized(w.block) && n <= |rows| && n <= K
    ensures ForwardDecoded(w, rows, n, e).stats.attempts == w.stats.attempts
  {
    if n == 0 {
    } else {
      ForwardingTriesNothing(w, rows, n - 1, e);
    }
  }

  lemma DecodeTriesOnce(w: World, e: Env)
    requires WellSized(w.block) && EnvOk(e)
    ensures TryDecode(w, e).stats.attempts == w.stats.attempts + if WillAttempt(w.block) then 1 else 0
  {
    if WillAttempt(w.block) {
      var b := w.block.(attempted := true);
      assert AllOfLength(b.rows, b.len);
      var decoded := e.codec.decode(b.k, b.rows, b.esis);
      if decoded.Some? {
        var w2 := World(b.(parityCounted := true), CountDecode(w.stats.(attempts := w.stats.attempts + 1), b),
                        w.log, w.finished);
        ForwardingTriesNothing(w2, decoded.value, b.k, e);
      }
    }
  }

  /** Symbols that the record has counted. */
  function Counted(b: Block): nat {
    b.sources + b.repairs
  }

  lemma WorkKeepsCounts(w: World, sym: Symbol, e: Env)
    requires WellSized(w.block) && w.block.live && EnvOk(e) && sym.symbolLen <= |sym.payload|
    ensures var w' := Work(w, sym, e);
      && Counted(w'.block) == Counted(w.block)
      && w.stats.attempts <= w'.stats.attempts <= w.stats.attempts + 1
      && (w'.stats.attempts > w.stats.attempts ==> w.block.k <= |w.block.esis|)
  {
    var w1 := ForwardSource(w, sym, e);
    DecodeKeepsHeader(w1, e);
    DecodeTriesOnce(w1, e);
  }

  lemma NotedCounts(b: Block, sym: Symbol, id: nat, src: seq<Packet>, e: Env)
    requires Fit(src, e) && EntryOk(b, id, src, e.codec) && SymbolOf(sym, id, src, e.codec)
    ensures Usable(sym) && StaysInBuffer(b, sym)
    ensures var b2 := Noted(b, sym, e);
      && Counted(b2) == Counted(b) + (if sym.esi in b.esis then 0 else 1)
      && b2.esis == (if sym.esi in b.esis || |b.esis| == MAX_SYMBOLS then b.esis else b.esis + [sym.esi])
      && b2.k == |src| && |b2.esis| <= Counted(b2) && NoRepeats(b2.esis)
  {
    NotedIsOk(b, sym, id, src, e);
    OpenedIsOk(b, sym, id, src, e);
    assert Counted(Opened(b, sym, e)) == Counted(b);
  }

  lemma WorkedCounts(b: Block, st: Stats, sym: Symbol, id: nat, src: seq<Packet>, e: Env)
    requires Fit(src, e) && EntryOk(b, id, src, e.codec) && SymbolOf(sym, id, src, e.codec)
    ensures Usable(sym) && StaysInBuffer(b, sym)
    ensures var b2, w := Noted(b, sym, e), Worked(b, st, sym, e);
      && Counted(w.block) == Counted(b2) && w.block.esis == b2.esis
      && st.attempts <= w.stats.attempts <= st.attempts + 1
      && (w.stats.attempts > st.attempts ==> b2.k <= |b2.esis|)
  {
    WorkedIsOk(b, st, sym, id, src, e);
    WorkKeepsCounts(World(Noted(b, sym, e), st, [], false), sym, e);
  }

  /** Finishing forgets all symbols; otherwise the record keeps what it has noted. */
  ghost predicate Keeps(b2: Block, b': Block) {
    (Counted(b') == Counted(b2) && b'.esis == b2.esis) || (Counted(b') == 0 && b'.esis == [])
  }

  ghost predicate TriedOnce(b2: Block, st: Stats, w: World, k: nat) {
    && Keeps(b2, w.block)
    && st.attempts <= w.stats.attempts <= st.attempts + 1
    && (w.stats.attempts > st.attempts ==> k <= |b2.esis|)
  }

  lemma EitherWay(b2: Block, st: Stats, w: World, w': World, silent: bool, k: nat)
    requires TriedOnce(b2, st, w, k)
    requires if silent then w'.stats == st && w'.block == b2 else w' == w || w' == Finalize(w)
    ensures TriedOnce(b2, st, w', k)
  {
  }

  lemma Stages(b: Block, st: Stats, sym: Symbol, known: bool, id: nat, src: seq<Packet>, e: Env)
      returns (w: World, silent: bool)
    requires Fit(src, e) && EntryOk(b, id, src, e.codec) && SymbolOf(sym, id, src, e.codec)
    ensures Usable(sym) && StaysInBuffer(b, sym) && TriedOnce(Noted(b, sym, e), st, w, |src|)
    ensures var w' := Handled(b, st, sym, known, e);
      if silent then w'.stats == st && w'.block == Noted(b, sym, e) else w' == w || w' == Finalize(w)
  {
    NotedCounts(b, sym, id, src, e);
    WorkedCounts(b, st, sym, id, src, e);
    Outcome(b, st, sym, known, e);
    w, silent := Worked(b, st, sym, e), known && sym.esi !in Opened(b, sym, e).esis;
  }

  /** One symbol is one call of the decoder at most, and only with at least k symbols stored. */
  lemma SymbolTriesOnce(b: Block, st: Stats, sym: Symbol, known: bool, id: nat, src: seq<Packet>, e: Env)
    requires Fit(src, e) && EntryOk(b, id, src, e.codec) && SymbolOf(sym, id, src, e.codec)
    ensures Usable(sym) && StaysInBuffer(b, sym) &&
      TriedOnce(Noted(b, sym, e), st, Handled(b, st, sym, known, e), |src|)
  {
    var w, silent := Stages(b, st, sym, known, id, src, e);
    EitherWay(Noted(b, sym, e), st, w, Handled(b, st, sym, known, e), silent, |src|);
  }

  // ----- whole runs

  lemma {:induction false} NoMoreThanSeen(xs: seq<nat>, seen: set<nat>)
    requires NoRepeats(xs) && forall x :: x in xs ==> x in seen
    ensures |xs| <= |seen|
    decreases |xs|
  {
    if |xs| == 0 {
    } else {
      var n := |xs| - 1;
      assert xs[n] !in xs[..n];
      NoMoreThanSeen(xs[..n], seen - {xs[n]});
    }
  }

  /** While at most 40 ids of the block have been seen, everything counted is stored. */
  ghost predicate Held(b: Block, seen: set<nat>) {
    NoRepeats(b.esis) && (forall x :: x in b.esis ==> x in seen) && (|seen| <= MAX_SYMBOLS ==> Counted(b) == |b.esis|)
  }

  lemma GrownIsLarger(seen: set<nat>, x: nat)
    ensures |seen| <= |seen + {x}|
  {
    assert seen + {x} == if x in seen then seen else seen + {x};
  }

  lemma StillHeld(b: Block, b2: Block, x: nat, seen: set<nat>)
    requires Held(b, seen) && |b.esis| <= MAX_SYMBOLS
    requires Counted(b2) == Counted(b) + (if x in b.esis then 0 else 1)
    requires b2.esis == if x in b.esis || |b.esis| == MAX_SYMBOLS then b.esis else b.esis + [x]
    ensures Held(b2, seen + {x})
  {
    GrownIsLarger(seen, x);
    if x !in b.esis {
      StillNoRepeats(b.esis, x);
      NoMoreThanSeen(b.esis + [x], seen + {x});
    }
  }

  /** What a block's record has counted, and how often the decoder was called for it. */
  ghost predicate WithinCount(b: Block, arrivals: nat, seen: set<nat>, k: nat, attempts: nat) {
    && Held(b, seen) && Counted(b) <= arrivals
    && (attempts > 0 ==> attempts + k <= arrivals + 1 && k <= |seen|)
  }

  lemma CountStep(b: Block, st: Stats, sym: Symbol, known: bool, arrivals: nat, seen: set<nat>, attempts: nat, id: nat,
                  src: seq<Packet>, e: Env)
    requires Fit(src, e) && EntryOk(b, id, src, e.codec) && SymbolOf(sym, id, src, e.codec)
    requires WithinCount(b, arrivals, seen, |src|, attempts)
    ensures Usable(sym) && StaysInBuffer(b, sym)
    ensures var w := Handled(b, st, sym, known, e);
      WithinCount(w.block, arrivals + 1, seen + {sym.esi}, |src|,
                  attempts + if w.stats.attempts > st.attempts then 1 else 0)
  {
    SymbolTriesOnce(b, st, sym, known, id, src, e);
    NotedCounts(b, sym, id, src, e);
    var b2 := Noted(b, sym, e);
    StillHeld(b, b2, sym.esi, seen);
    NoMoreThanSeen(b2.esis, seen + {sym.esi});
    GrownIsLarger(seen, sym.esi);
  }

  lemma ArrivalsGrow(before: seq<Datagram>, d: Datagram, s: nat)
    ensures ArrivalsOf(before + [d], s) == ArrivalsOf(before, s) + if d.serial == s then 1 else 0
  {
    assert (before + [d])[..|before|] == before;
  }

  lemma UnfoldAttempts(before: seq<Datagram>, d: Datagram, s: nat, src: nat -> seq<Packet>, e: Env)
    requires Setting(src, e) && Genuine(before, src, e.codec) && GenuineDatagram(d, src, e.codec)
    requires Genuine(before + [d], src, e.codec) && Takes(ReceiveIdeal(before, src, e), d)
    ensures AttemptsFor(before + [d], s, src, e) ==
            AttemptsFor(before, s, src, e) + Tried(ReceiveIdeal(before, src, e), d, s, e)
  {
    var trace := before + [d];
    assert trace[..|trace| - 1] == before && trace[|trace| - 1] == d;
  }

  lemma OwnCountStep(id: Ideal, d: Datagram, arrivals: nat, seen: set<nat>, attempts: nat, src: nat -> seq<Packet>,
                     e: Env)
    requires Setting(src, e) && GenuineDatagram(d, src, e.codec) && IdealOk(id, src, e.codec) && Takes(id, d)
    requires WithinCount(Entry(id.slots, d.serial), arrivals, seen, |src(d.serial)|, attempts)
    ensures WithinCount(Entry(OnIdeal(id, d, e).slots, d.serial), arrivals + 1, seen + {d.sym.esi}, |src(d.serial)|,
                        attempts + Tried(id, d, d.serial, e))
  {
    IdealByResult(id, d, e, d.serial);
    EntryIsOk(id, d.serial, src, e.codec);
    CountStep(Entry(id.slots, d.serial), CountFragment(id.stats, d.sym), d.sym, d.serial in id.done, arrivals, seen,
              attempts, WireId(d.serial), src(d.serial), At(e, d));
  }

  lemma OtherCountStep(id: Ideal, d: Datagram, s: nat, src: nat -> seq<Packet>, e: Env)
    requires Setting(src, e) && GenuineDatagram(d, src, e.codec) && IdealOk(id, src, e.codec) && Takes(id, d)
    requires d.serial != s
    ensures Entry(OnIdeal(id, d, e).slots, s) == Entry(id.slots, s) && Tried(id, d, s, e) == 0
  {
    IdealByResult(id, d, e, s);
  }

  /** Calls of the decoder are bounded by what arrived: the first k - 1 symbols of a block never cause one, and there is
      none before k different symbols have arrived; what is counted is stored. */
  lemma {:induction false} AttemptsAreBounded(trace: seq<Datagram>, s: nat, src: nat -> seq<Packet>, e: Env)
    requires Setting(src, e) && Genuine(trace, src, e.codec)
    ensures WithinCount(Entry(ReceiveIdeal(trace, src, e).slots, s), ArrivalsOf(trace, s), EsisOf(trace, s), |src(s)|,
                        AttemptsFor(trace, s, src, e))
    decreases |trace|
  {
    if |trace| == 0 {
      assert EsisOf(trace, s) == {};
    } else {
      var before, d := trace[..|trace| - 1], trace[|trace| - 1];
      GenuineLast(trace, src, e.codec);
      assert trace == before + [d];
      AttemptsAreBounded(before, s, src, e);
      UnfoldIdeal(before, d, src, e);
      UnfoldAttempts(before, d, s, src, e);
      ArrivalsGrow(before, d, s);
      EsisGrow(before, d, s);
      if d.serial == s {
        OwnCountStep(ReceiveIdeal(before, src, e), d, ArrivalsOf(before, s), EsisOf(before, s),
                     AttemptsFor(before, s, src, e), src, e);
      } else {
        OtherCountStep(ReceiveIdeal(before, src, e), d, s, src, e);
      }
    }
  }

  lemma {:induction false} DistinctArrivals(trace: seq<Datagram>, s: nat)
    requires Distinct(trace)
    ensures ArrivalsOf(trace, s) == |EsisOf(trace, s)|
    decreases |trace|
  {
    if |trace| == 0 {
      assert EsisOf(trace, s) == {};
    } else {
      var before, d := trace[..|trace| - 1], trace[|trace| - 1];
      DistinctIsNew(trace, |trace| - 1);
      DistinctArrivals(before, s);
      assert trace == before + [d];
      EsisGrow(before, d, s);
      ArrivalsGrow(before, d, s);
    }
  }

  // ----- without the decoder, only what arrived goes out

  ghost predicate OnlyRow(outs: seq<Delivery>, esi: nat) {
    forall k :: 0 <= k < |outs| ==> outs[k].index == esi
  }

  lemma WorkWithoutDecoder(w: World, sym: Symbol, e: Env)
    requires WellSized(w.block) && w.block.live && EnvOk(e) && sym.symbolLen <= |sym.payload| && w.log == []
    requires Work(w, sym, e).stats.attempts == w.stats.attempts
    ensures OnlyRow(Work(w, sym, e).log, sym.esi)
  {
    var w1 := ForwardSource(w, sym, e);
    DecodeTriesOnce(w1, e);
    assert TryDecode(w1, e) == w1;
  }

  lemma SendsWithoutDecoder(b: Block, st: Stats, sym: Symbol, known: bool, id: nat, src: seq<Packet>, e: Env)
    requires Fit(src, e) && EntryOk(b, id, src, e.codec) && SymbolOf(sym, id, src, e.codec)
    ensures Usable(sym) && StaysInBuffer(b, sym)
    ensures var w := Handled(b, st, sym, known, e); w.stats.attempts == st.attempts ==> OnlyRow(w.log, sym.esi)
  {
    WorkedIsOk(b, st, sym, id, src, e);
    Outcome(b, st, sym, known, e);
    if Worked(b, st, sym, e).stats.attempts == st.attempts {
      WorkWithoutDecoder(World(Noted(b, sym, e), st, [], false), sym, e);
    }
  }

  ghost predicate IndicesIn(outs: seq<Delivery>, seen: set<nat>) {
    forall k :: 0 <= k < |outs| ==> outs[k].index in seen
  }

  lemma OwnCauseStep(id: Ideal, d: Datagram, seen: set<nat>, src: nat -> seq<Packet>, e: Env)
    requires Setting(src, e) && GenuineDatagram(d, src, e.codec) && IdealOk(id, src, e.codec) && Takes(id, d)
    requires IndicesIn(Of(id.log, d.serial), seen) && Tried(id, d, d.serial, e) == 0
    ensures IndicesIn(Of(OnIdeal(id, d, e).log, d.serial), seen + {d.sym.esi})
  {
    var s := d.serial;
    IdealByResult(id, d, e, s);
    EntryIsOk(id, s, src, e.codec);
    var b, st := Entry(id.slots, s), CountFragment(id.stats, d.sym);
    SymbolTriesOnce(b, st, d.sym, s in id.done, WireId(s), src(s), At(e, d));
    SendsWithoutDecoder(b, st, d.sym, s in id.done, WireId(s), src(s), At(e, d));
  }

  /** As long as the decoder has not been called for a block, the rows that went out are rows that arrived. */
  lemma {:induction false} OutputIsCaused(trace: seq<Datagram>, s: nat, src: nat -> seq<Packet>, e: Env)
    requires Setting(src, e) && Genuine(trace, src, e.codec)
    ensures AttemptsFor(trace, s, src, e) == 0 ==> IndicesIn(Of(ReceiveIdeal(trace, src, e).log, s), EsisOf(trace, s))
    decreases |trace|
  {
    if |trace| > 0 && AttemptsFor(trace, s, src, e) == 0 {
      var before, d := trace[..|trace| - 1], trace[|trace| - 1];
      GenuineLast(trace, src, e.codec);
      assert trace == before + [d];
      OutputIsCaused(before, s, src, e);
      UnfoldIdeal(before, d, src, e);
      UnfoldAttempts(before, d, s, src, e);
      EsisGrow(before, d, s);
      if d.serial == s {
        OwnCauseStep(ReceiveIdeal(before, src, e), d, EsisOf(before, s), src, e);
      } else {
        IdealByResult(ReceiveIdeal(before, src, e), d, e, s);
      }
    }
  }
}
