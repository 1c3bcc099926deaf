/** Runs of one generation's fragments over one slot. */
module RsDelivery {
  import opened Bags
  import opened Base
  import opened Deliveries
  import opened RsCodec
  import opened Wire
  import opened RsSlot
  import opened RsGeneration
  import opened RsSlotLaws

  // The forwarded set does not depend on order or repetition, every packet goes out exactly once, and its bytes are
  // right exactly when the gate opened with at most r packets missing.

  /** A fragment's place, and the clock and the raw socket's verdicts while it is handled. */
  datatype Arrival = Arrival(mark: Mark, at: nat, accepts: nat -> bool)

  function During(e: Env, a: Arrival): Env {
    e.(now := a.at, accepts := a.accepts)
  }

  function Marks(arrivals: seq<Arrival>): (ms: seq<Mark>)
    ensures |ms| == |arrivals|
  {
    seq(|arrivals|, k requires 0 <= k < |arrivals| => arrivals[k].mark)
  }

  ghost predicate ValidMarks(ms: seq<Mark>, r: nat) {
    forall k :: 0 <= k < |ms| ==> ValidMark(ms[k], r)
  }

  /** The receiver's handler applied to the fragments of one generation, one after the other. */
  function Run(w: World, g: Generation, arrivals: seq<Arrival>, e: Env): (w': World)
    requires WellSized(w.slot) && EnvOk(e) && ValidGeneration(g) && ValidMarks(Marks(arrivals), e.r)
    ensures WellSized(w'.slot)
  {
    if |arrivals| == 0 then w
    else
      var n := |arrivals| - 1;
      assert Marks(arrivals)[n] == arrivals[n].mark;
      assert Marks(arrivals)[..n] == Marks(arrivals[..n]);
      var w1 := Run(w, g, arrivals[..n], e);
      var w2 := OnFragment(w1.(log := []), FragmentOf(e.codec, e.r, g, arrivals[n].mark), During(e, arrivals[n]));
      w2.(log := w1.log + w2.log)
  }

  // ----- the run follows the set of places seen

  ghost predicate ParityIsGenuine(s: Slot, g: Generation, c: Codec, r: nat)
    requires WellSized(s) && r <= MAX_PARITY && Shaped(c, r) && ValidGeneration(g)
  {
    forall p :: 0 <= p < r && s.parityPresent[p] ==> s.parity[p][..g.len] == ParityRow(c, r, g.rows, g.len, p)
  }

  /** The slot holds g, its flags are determined by the places seen, and exactly the forwarded rows went out. */
  ghost predicate Tracks(s: Slot, outs: seq<Delivery>, g: Generation, c: Codec, r: nat, ms: seq<Mark>)
    requires r <= MAX_PARITY && Shaped(c, r) && ValidGeneration(g)
  {
    && WellSized(s) && s.inUse && s.genId == g.id && s.len == g.len
    && s.parityPresent == ParitySeen(ms)
    && s.present == s.forwarded == Settled(DataSeen(ms), ParityComplete(ms, r))
    && DeliveredOnce(outs, g.id, Rows(s), s.forwarded)
    && ParityIsGenuine(s, g, c, r)
  }

  /** The slot is not holding generation id: it is unused or will be wiped. */
  ghost predicate NotHolding(s: Slot, id: nat) {
    !(s.inUse && s.genId == id)
  }

  lemma NothingSeen(r: nat)
    ensures !ParityComplete([], r)
  {
    assert r > 0 ==> ParityMark(0) !in [];
  }

  lemma LookupTracks(w: World, outs: seq<Delivery>, g: Generation, f: Fragment, e: Env, ms: seq<Mark>)
    requires WellSized(w.slot) && EnvOk(e) && ValidGeneration(g)
    requires Acceptable(f) && f.genId == g.id && f.originalLen == g.len
    requires Tracks(w.slot, outs, g, e.codec, e.r, ms) || (NotHolding(w.slot, g.id) && outs == [] && ms == [])
    ensures Tracks(Lookup(w, f, e).slot, outs, g, e.codec, e.r, ms) && Lookup(w, f, e).log == w.log
    ensures Tracks(w.slot, outs, g, e.codec, e.r, ms) ==>
              Lookup(w, f, e).slot.data == w.slot.data && Lookup(w, f, e).slot.present == w.slot.present
  {
    var s := Lookup(w, f, e).slot;
    if !Tracks(w.slot, outs, g, e.codec, e.r, ms) {
      NothingSeen(e.r);
      assert s.forwarded == DataSeen([]);
      assert s.parityPresent == ParitySeen([]);
    } else {
      assert Rows(s) == Rows(w.slot);
    }
  }

  lemma StoreLaw(w: World, outs: seq<Delivery>, g: Generation, m: Mark, e: Env, ms: seq<Mark>)
    requires EnvOk(e) && ValidGeneration(g) && ValidMark(m, e.r) && Tracks(w.slot, outs, g, e.codec, e.r, ms)
    ensures var f := FragmentOf(e.codec, e.r, g, m); var w' := Store(w, f, e.r);
      && Acceptable(f) && Storable(f, e.r)
      && w'.log == w.log && w'.slot.inUse && w'.slot.genId == g.id && w'.slot.len == g.len
      && w'.slot.forwarded == w.slot.forwarded
      && w'.slot.parityPresent == ParitySeen(ms + [m])
      && w'.slot.present == Settled(DataSeen(ms + [m]), ParityComplete(ms, e.r))
      && ParityIsGenuine(w'.slot, g, e.codec, e.r)
      && (forall i :: 0 <= i < K && w.slot.present[i] ==> w'.slot.present[i] && w'.slot.data[i] == w.slot.data[i])
      && (forall i :: 0 <= i < K && w'.slot.present[i] && !w.slot.present[i] ==> w'.slot.data[i][..g.len] == g.rows[i])
  {
    SeenGrows(ms, m);
    var f := FragmentOf(e.codec, e.r, g, m);
    var w' := Store(w, f, e.r);
    if m.DataMark? && !w.slot.present[m.i] {
      assert w'.slot.data[m.i][..g.len] == f.payload;
    } else if m.ParityMark? && !w.slot.parityPresent[m.p] {
      assert w'.slot.parity[m.p][..g.len] == f.payload;
    }
  }

  /** Storing and processing one more fragment of g. */
  lemma StepTracks(w: World, outs: seq<Delivery>, g: Generation, m: Mark, e: Env, ms: seq<Mark>)
    requires EnvOk(e) && ValidGeneration(g) && ValidMark(m, e.r) && Tracks(w.slot, outs, g, e.codec, e.r, ms) &&
      w.log == []
    ensures var w1 := Store(w, FragmentOf(e.codec, e.r, g, m), e.r); var w2 := Process(w1, e);
      && Tracks(w2.slot, outs + w2.log, g, e.codec, e.r, ms + [m])
      && SettledRows(w1.slot, w2.slot, e.codec, e.r)
  {
    StoreLaw(w, outs, g, m, e, ms);
    var w1 := Store(w, FragmentOf(e.codec, e.r, g, m), e.r);
    ProcessLaw(w1, e);
    var w2 := Process(w1, e);
    SettledBySeen(w1.slot, w2.slot, ms, m, e);
    DecodeKeepsPresentRows(w1.slot, e);
    assert w2.log[|w1.log|..] == w2.log;
    DeliveriesExtend(w.slot, outs, w2.slot, w2.log);
  }

  /** One pass adds its deliveries to the earlier ones. */
  lemma DeliveriesExtend(s: Slot, outs: seq<Delivery>, s': Slot, outs': seq<Delivery>)
    requires WellSized(s) && WellSized(s') && s'.genId == s.genId && s'.len == s.len
    requires DeliveredOnce(outs, s.genId, Rows(s), s.forwarded)
    requires DeliveredOnce(outs', s.genId, Rows(s'), Minus(s'.forwarded, s.forwarded))
    requires forall i :: 0 <= i < K && s.forwarded[i] ==> s'.forwarded[i] && s'.data[i] == s.data[i]
    ensures DeliveredOnce(outs + outs', s.genId, Rows(s'), s'.forwarded)
  {
    DeliveriesAgree(outs, s.genId, Rows(s), Rows(s'), s.forwarded);
    var on := Minus(s'.forwarded, s.forwarded);
    DeliveriesCompose(outs, outs', s.genId, Rows(s'), s.forwarded, on);
    assert Union(s.forwarded, on) == s'.forwarded;
  }

  lemma SettledBySeen(s: Slot, s': Slot, ms: seq<Mark>, m: Mark, e: Env)
    requires WellSized(s) && WellSized(s') && EnvOk(e) && SettledRows(s, s', e.codec, e.r)
    requires s.present == Settled(DataSeen(ms + [m]), ParityComplete(ms, e.r))
    requires s.parityPresent == ParitySeen(ms + [m])
    ensures AllParity(s, e.r) && e.r > 0 <==> ParityComplete(ms + [m], e.r)
    ensures s'.present == Settled(DataSeen(ms + [m]), ParityComplete(ms + [m], e.r))
    ensures forall i :: 0 <= i < K && s.present[i] ==> s'.present[i]
  {
    assert forall p :: 0 <= p < e.r ==> (s.parityPresent[p] <==> ParityMark(p) in ms + [m]);
    assert ParityComplete(ms, e.r) ==> ParityComplete(ms + [m], e.r);
  }

  lemma HandlerIsLookupStoreProcess(w: World, g: Generation, m: Mark, e: Env)
    requires WellSized(w.slot) && EnvOk(e) && ValidGeneration(g) && ValidMark(m, e.r)
    ensures var f := FragmentOf(e.codec, e.r, g, m);
      && Acceptable(f) && Storable(f, e.r)
      && OnFragment(w, f, e) == Process(Store(Lookup(w, f, e), f, e.r), e)
  {
  }

  lemma MarksSplit(arrivals: seq<Arrival>)
    requires |arrivals| > 0
    ensures Marks(arrivals) == Marks(arrivals[..|arrivals| - 1]) + [arrivals[|arrivals| - 1].mark]
    ensures forall r :: ValidMarks(Marks(arrivals), r) ==>
              ValidMarks(Marks(arrivals[..|arrivals| - 1]), r) && ValidMark(arrivals[|arrivals| - 1].mark, r)
  {
    var ms, before := Marks(arrivals), Marks(arrivals[..|arrivals| - 1]);
    assert ms == before + [arrivals[|arrivals| - 1].mark];
    assert forall k :: 0 <= k < |before| ==> before[k] == ms[k];
    assert ms[|before|] == arrivals[|arrivals| - 1].mark;
  }

  /** The handler on one more fragment of g, from a slot that tracks g or does not hold it yet. */
  lemma HandlerTracks(w: World, outs: seq<Delivery>, g: Generation, m: Mark, e: Env, ms: seq<Mark>)
    requires WellSized(w.slot) && EnvOk(e) && ValidGeneration(g) && ValidMark(m, e.r) && w.log == []
    requires Tracks(w.slot, outs, g, e.codec, e.r, ms) || (NotHolding(w.slot, g.id) && outs == [] && ms == [])
    ensures Acceptable(FragmentOf(e.codec, e.r, g, m))
    ensures var w' := OnFragment(w, FragmentOf(e.codec, e.r, g, m), e);
      Tracks(w'.slot, outs + w'.log, g, e.codec, e.r, ms + [m])
  {
    var f := FragmentOf(e.codec, e.r, g, m);
    HandlerIsLookupStoreProcess(w, g, m, e);
    LookupTracks(w, outs, g, f, e, ms);
    StepTracks(Lookup(w, f, e), outs, g, m, e, ms);
  }

  /** Whatever the order and the repetitions: after a nonempty run the slot's flags are those of the set of places
      seen, and exactly the forwarded rows have gone out, each once. */
  lemma {:induction false} RunFollowsSet(w: World, g: Generation, arrivals: seq<Arrival>, e: Env)
    requires WellSized(w.slot) && EnvOk(e) && ValidGeneration(g) && ValidMarks(Marks(arrivals), e.r)
    requires NotHolding(w.slot, g.id) && w.log == [] && |arrivals| > 0
    ensures var w' := Run(w, g, arrivals, e); Tracks(w'.slot, w'.log, g, e.codec, e.r, Marks(arrivals))
  {
    var n := |arrivals| - 1;
    MarksSplit(arrivals);
    var before := arrivals[..n];
    var w0 := Run(w, g, before, e);
    if |before| > 0 {
      RunFollowsSet(w, g, before, e);
    }
    HandlerTracks(w0.(log := []), w0.log, g, arrivals[n].mark, During(e, arrivals[n]), Marks(before));
  }

  /** Two runs over the same places, in any order and with any repetitions, forward the same packets. */
  lemma ForwardingIsOrderFree(w: World, g: Generation, xs: seq<Arrival>, ys: seq<Arrival>, e: Env)
    requires WellSized(w.slot) && EnvOk(e) && ValidGeneration(g)
    requires ValidMarks(Marks(xs), e.r) && ValidMarks(Marks(ys), e.r)
    requires NotHolding(w.slot, g.id) && w.log == [] && |xs| > 0 && |ys| > 0
    requires forall m :: m in Marks(xs) <==> m in Marks(ys)
    ensures Run(w, g, xs, e).slot.forwarded == Run(w, g, ys, e).slot.forwarded
  {
    RunFollowsSet(w, g, xs, e);
    RunFollowsSet(w, g, ys, e);
    assert DataSeen(Marks(xs)) == DataSeen(Marks(ys));
    assert ParityComplete(Marks(xs), e.r) == ParityComplete(Marks(ys), e.r);
  }

  /** A generation is complete exactly when all data or all parity has arrived. */
  lemma CompleteIff(w: World, g: Generation, xs: seq<Arrival>, e: Env)
    requires WellSized(w.slot) && EnvOk(e) && ValidGeneration(g) && ValidMarks(Marks(xs), e.r)
    requires NotHolding(w.slot, g.id) && w.log == [] && |xs| > 0
    ensures Count(Run(w, g, xs, e).slot.forwarded) == K <==>
            ParityComplete(Marks(xs), e.r) || DataComplete(Marks(xs))
  {
    RunFollowsSet(w, g, xs, e);
    DataCompleteIsFull(Marks(xs));
  }

  // ----- the bytes

  ghost predicate RowsAreGenuine(s: Slot, g: Generation)
    requires WellSized(s) && ValidGeneration(g)
  {
    forall i :: 0 <= i < K && s.present[i] ==> s.data[i][..g.len] == g.rows[i]
  }

  /** What the decoder is given is a codeword of the generation with the missing bytes blanked. */
  lemma ColumnIsReceived(s: Slot, g: Generation, c: Codec, r: nat, j: nat)
    requires WellSized(s) && r <= MAX_PARITY && Shaped(c, r) && ValidGeneration(g) && j < g.len
    requires RowsAreGenuine(s, g) && ParityIsGenuine(s, g, c, r) && AllParity(s, r)
    ensures var d := Column(g.rows, j); ColumnWord(s, r, j) == Received(s.present, d + c.encode(d))
  {
    var d := Column(g.rows, j);
    var word, received := ColumnWord(s, r, j), Received(s.present, d + c.encode(d));
    forall i | 0 <= i < K + r
      ensures word[i] == received[i]
    {
      if i < K && s.present[i] {
        assert s.data[i][..g.len][j] == g.rows[i][j];
      } else if i >= K {
        assert s.parity[i - K][..g.len][j] == ParityRow(c, r, g.rows, g.len, i - K)[j];
      }
    }
  }

  /** Decoding column by column and encoding column by column are inverse across the two layouts. */
  lemma DecodingRebuilds(s: Slot, g: Generation, c: Codec, r: nat)
    requires WellSized(s) && r <= MAX_PARITY && ValidGeneration(g) && Correct(c, r)
    requires RowsAreGenuine(s, g) && ParityIsGenuine(s, g, c, r) && AllParity(s, r)
    requires |Missing(s.present)| <= r
    ensures forall i :: 0 <= i < K ==> DecodedRows(s, c, r, g.len)[i][..g.len] == g.rows[i]
  {
    forall i, j | 0 <= i < K && 0 <= j < g.len
      ensures DecodedRows(s, c, r, g.len)[i][j] == g.rows[i][j]
    {
      ColumnIsReceived(s, g, c, r, j);
      var d := Column(g.rows, j);
      assert Restores(c, r, s.present, d);
      if s.present[i] {
        assert s.data[i][..g.len][j] == g.rows[i][j];
      }
    }
    forall i | 0 <= i < K
      ensures DecodedRows(s, c, r, g.len)[i][..g.len] == g.rows[i]
    {
      assert forall j :: 0 <= j < g.len ==> DecodedRows(s, c, r, g.len)[i][..g.len][j] == g.rows[i][j];
    }
  }

  /** At the fragment that completes the parity, at most r packets are missing. */
  ghost predicate GateWithinParity(ms: seq<Mark>, r: nat) {
    forall n :: 0 < n <= |ms| && GateOpensAt(ms, r, n) ==> |Missing(DataSeen(ms[..n]))| <= r
  }

  ghost predicate GateOpensAt(ms: seq<Mark>, r: nat, n: nat)
    requires 0 < n <= |ms|
  {
    ParityComplete(ms[..n], r) && !ParityComplete(ms[..n - 1], r)
  }

  /** One fragment's effect on the slot: s0 before, s1 with the fragment stored, s2 after the pass. */
  ghost predicate SlotStep(s0: Slot, s1: Slot, s2: Slot, g: Generation, c: Codec, r: nat, ms: seq<Mark>, m: Mark)
    requires r <= MAX_PARITY && Shaped(c, r) && ValidGeneration(g)
  {
    && WellSized(s0) && WellSized(s1) && WellSized(s2) && s1.len == g.len == s2.len
    && s1.present == Settled(DataSeen(ms + [m]), ParityComplete(ms, r))
    && (r > 0 && AllParity(s1, r) <==> ParityComplete(ms + [m], r))
    && ParityIsGenuine(s1, g, c, r)
    && SettledRows(s1, s2, c, r)
    && (forall i :: 0 <= i < K && s0.present[i] ==> s1.present[i] && s1.data[i] == s0.data[i])
    && (forall i :: 0 <= i < K && s1.present[i] && !s0.present[i] ==> s1.data[i][..g.len] == g.rows[i])
  }

  /** One call of the handler, reduced to the slot. */
  lemma StoredStep(w: World, outs: seq<Delivery>, g: Generation, m: Mark, e: Env, ms: seq<Mark>) returns (s1: Slot)
    requires EnvOk(e) && ValidGeneration(g) && ValidMark(m, e.r) && Tracks(w.slot, outs, g, e.codec, e.r, ms) &&
      w.log == []
    ensures var f := FragmentOf(e.codec, e.r, g, m);
      Acceptable(f) && Storable(f, e.r)
      && SlotStep(w.slot, s1, Process(Store(w, f, e.r), e).slot, g, e.codec, e.r, ms, m)
  {
    StoreLaw(w, outs, g, m, e, ms);
    StepTracks(w, outs, g, m, e, ms);
    var w1 := Store(w, FragmentOf(e.codec, e.r, g, m), e.r);
    s1 := w1.slot;
    SettledBySeen(s1, Process(w1, e).slot, ms, m, e);
  }

  lemma HandlerStep(w: World, outs: seq<Delivery>, g: Generation, m: Mark, e: Env, ms: seq<Mark>)
    returns (s0: Slot, s1: Slot)
    requires WellSized(w.slot) && EnvOk(e) && ValidGeneration(g) && ValidMark(m, e.r) && w.log == []
    requires Tracks(w.slot, outs, g, e.codec, e.r, ms) || (NotHolding(w.slot, g.id) && outs == [] && ms == [])
    ensures Acceptable(FragmentOf(e.codec, e.r, g, m))
    ensures SlotStep(s0, s1, OnFragment(w, FragmentOf(e.codec, e.r, g, m), e).slot, g, e.codec, e.r, ms, m)
    ensures Tracks(w.slot, outs, g, e.codec, e.r, ms) ==> s0.data == w.slot.data && s0.present == w.slot.present
    ensures ms == [] ==> !ParityComplete(ms, e.r) && forall i :: 0 <= i < K ==> !s0.present[i]
  {
    var f := FragmentOf(e.codec, e.r, g, m);
    var w1 := Lookup(w, f, e);
    HandlerIsLookupStoreProcess(w, g, m, e);
    LookupTracks(w, outs, g, f, e, ms);
    s0 := w1.slot;
    s1 := StoredStep(w1, outs, g, m, e, ms);
    if ms == [] {
      NothingSeen(e.r);
      assert s0.present == DataSeen([]);
    }
  }

  lemma HandlerReachesDecoder(w: World, f: Fragment, e: Env)
    requires WellSized(w.slot) && Acceptable(f) && f.originalLen > 0 && EnvOk(e) && Storable(f, e.r)
    ensures OnFragment(w, f, e) == Complete(Decode(AtDecoder(w, f, e), e))
  {
  }

  lemma GateIffUnseen(s: Slot, ms: seq<Mark>, r: nat)
    requires WellSized(s) && s.inUse && s.len > 0 && ParityComplete(ms, r) && r <= MAX_PARITY
    requires s.parityPresent == ParitySeen(ms) && s.present == s.forwarded == DataSeen(ms)
    ensures GateOpen(s, r) <==> |Missing(DataSeen(ms))| > 0
  {
    assert forall p :: 0 <= p < r ==> (s.parityPresent[p] <==> ParityMark(p) in ms);
  }

  /** When a fragment completes the parity, the decoder is told to rebuild exactly the packets that have not been
      seen. */
  lemma DecoderIsToldUnseen(w: World, outs: seq<Delivery>, g: Generation, m: Mark, e: Env, ms: seq<Mark>)
    requires WellSized(w.slot) && EnvOk(e) && ValidGeneration(g) && ValidMark(m, e.r) && w.log == []
    requires Tracks(w.slot, outs, g, e.codec, e.r, ms) || (NotHolding(w.slot, g.id) && outs == [] && ms == [])
    requires ParityComplete(ms + [m], e.r) && !ParityComplete(ms, e.r)
    ensures var f := FragmentOf(e.codec, e.r, g, m);
      && Acceptable(f) && Storable(f, e.r)
      && var slot := AtDecoder(w, f, e).slot;
         slot.present == DataSeen(ms + [m]) && (GateOpen(slot, e.r) <==> |Missing(DataSeen(ms + [m]))| > 0)
  {
    var f := FragmentOf(e.codec, e.r, g, m);
    LookupTracks(w, outs, g, f, e, ms);
    var w1 := Lookup(w, f, e);
    StoreLaw(w1, outs, g, m, e, ms);
    var w2 := Store(w1, f, e.r);
    PassOriginals(w2, e);
    GateIffUnseen(AtDecoder(w, f, e).slot, ms + [m], e.r);
  }

  /** The step that ends a run. */
  lemma LastStep(w: World, g: Generation, arrivals: seq<Arrival>, e: Env) returns (s0: Slot, s1: Slot)
    requires WellSized(w.slot) && EnvOk(e) && ValidGeneration(g) && ValidMarks(Marks(arrivals), e.r)
    requires NotHolding(w.slot, g.id) && w.log == [] && |arrivals| > 0
    ensures var n := |arrivals| - 1; var m := arrivals[n].mark; var ms := Marks(arrivals[..n]);
      && Marks(arrivals) == ms + [m] && Marks(arrivals)[..n] == ms && ValidMarks(ms, e.r)
      && SlotStep(s0, s1, Run(w, g, arrivals, e).slot, g, e.codec, e.r, ms, m)
      && (n == 0 ==> !ParityComplete(ms, e.r) && forall i :: 0 <= i < K ==> !s0.present[i])
      && (n > 0 ==> var s := Run(w, g, arrivals[..n], e).slot; s0.data == s.data && s0.present == s.present)
  {
    var n := |arrivals| - 1;
    MarksSplit(arrivals);
    var before := arrivals[..n];
    var w0 := Run(w, g, before, e);
    if n > 0 {
      RunFollowsSet(w, g, before, e);
    }
    s0, s1 := HandlerStep(w0.(log := []), w0.log, g, arrivals[n].mark, During(e, arrivals[n]), Marks(before));
  }

  lemma StepKeepsRows(s0: Slot, s1: Slot, s2: Slot, g: Generation, c: Codec, r: nat, ms: seq<Mark>, m: Mark, i: nat)
    requires r <= MAX_PARITY && Shaped(c, r) && ValidGeneration(g) && SlotStep(s0, s1, s2, g, c, r, ms, m)
    requires i < K && s0.present[i]
    ensures s2.present[i] && s2.data[i] == s0.data[i]
  {
    assert s1.present[i];
    var rows := DecodedRows(s1, c, r, s1.len);
    assert rows[i] == s1.data[i];
  }

  lemma StepKeepsBytes(s0: Slot, s1: Slot, s2: Slot, g: Generation, c: Codec, r: nat, ms: seq<Mark>, m: Mark)
    requires r <= MAX_PARITY && Shaped(c, r) && ValidGeneration(g) && SlotStep(s0, s1, s2, g, c, r, ms, m)
    requires RowsAreGenuine(s0, g)
    requires ParityComplete(ms + [m], r) && !ParityComplete(ms, r) ==>
               Correct(c, r) && |Missing(DataSeen(ms + [m]))| <= r
    ensures RowsAreGenuine(s1, g) && RowsAreGenuine(s2, g)
  {
    FullIsAllTrue(s1.present);
    if r > 0 && AllParity(s1, r) && Count(s1.present) < K {
      DecodingRebuilds(s1, g, c, r);
    }
  }

  /** One call of the handler keeps the bytes right, if it opens the gate within the codec's reach. */
  lemma HandlerKeepsBytes(w: World, outs: seq<Delivery>, g: Generation, m: Mark, e: Env, ms: seq<Mark>)
    requires WellSized(w.slot) && EnvOk(e) && ValidGeneration(g) && ValidMark(m, e.r) && w.log == []
    requires Tracks(w.slot, outs, g, e.codec, e.r, ms) || (NotHolding(w.slot, g.id) && outs == [] && ms == [])
    requires ms != [] ==> RowsAreGenuine(w.slot, g)
    requires ParityComplete(ms + [m], e.r) ==> Correct(e.codec, e.r)
    requires GateWithinParity(ms + [m], e.r)
    ensures Acceptable(FragmentOf(e.codec, e.r, g, m))
    ensures RowsAreGenuine(OnFragment(w, FragmentOf(e.codec, e.r, g, m), e).slot, g)
  {
    var s0, s1 := HandlerStep(w, outs, g, m, e, ms);
    var all := ms + [m];
    assert all[..|all|] == all && all[..|all| - 1] == ms;
    assert ParityComplete(all, e.r) && !ParityComplete(ms, e.r) ==> GateOpensAt(all, e.r, |all|);
    StepKeepsBytes(s0, s1, OnFragment(w, FragmentOf(e.codec, e.r, g, m), e).slot, g, e.codec, e.r, ms, m);
  }

  /** Stored and rebuilt rows hold the generation's bytes, provided the gate opened within the codec's reach. */
  lemma {:induction false} RunKeepsBytes(w: World, g: Generation, arrivals: seq<Arrival>, e: Env)
    requires WellSized(w.slot) && EnvOk(e) && ValidGeneration(g) && ValidMarks(Marks(arrivals), e.r)
    requires NotHolding(w.slot, g.id) && w.log == [] && |arrivals| > 0
    requires GateWithinParity(Marks(arrivals), e.r)
    requires ParityComplete(Marks(arrivals), e.r) ==> Correct(e.codec, e.r)
    ensures RowsAreGenuine(Run(w, g, arrivals, e).slot, g)
  {
    var n, ms := |arrivals| - 1, Marks(arrivals);
    var s0, s1 := LastStep(w, g, arrivals, e);
    if n > 0 {
      GatePrefix(ms, e.r, n);
      if ParityComplete(ms[..n], e.r) {
        ParityGrows(ms, e.r, n);
      }
      RunKeepsBytes(w, g, arrivals[..n], e);
    }
    assert ms[..n + 1] == ms;
    assert ParityComplete(ms, e.r) && !ParityComplete(ms[..n], e.r) ==> GateOpensAt(ms, e.r, n + 1);
    StepKeepsBytes(s0, s1, Run(w, g, arrivals, e).slot, g, e.codec, e.r, ms[..n], arrivals[n].mark);
  }

  lemma ParityGrows(ms: seq<Mark>, r: nat, n: nat)
    requires n <= |ms| && ParityComplete(ms[..n], r)
    ensures ParityComplete(ms, r)
  {
    assert forall p :: 0 <= p < r ==> ParityMark(p) in ms[..n];
  }

  lemma GatePrefix(ms: seq<Mark>, r: nat, n: nat)
    requires GateWithinParity(ms, r) && n <= |ms|
    ensures GateWithinParity(ms[..n], r)
  {
    forall k | 0 < k <= n && GateOpensAt(ms[..n], r, k)
      ensures |Missing(DataSeen(ms[..n][..k]))| <= r
    {
      assert ms[..n][..k] == ms[..k] && ms[..n][..k - 1] == ms[..k - 1];
      assert GateOpensAt(ms, r, k);
    }
  }

  /** Each forwarded packet of g went out exactly once, byte-identical to the packet that entered the gateway. */
  ghost predicate Delivers(w: World, g: Generation, arrivals: seq<Arrival>, e: Env)
    requires WellSized(w.slot) && EnvOk(e) && ValidGeneration(g) && ValidMarks(Marks(arrivals), e.r)
  {
    var w' := Run(w, g, arrivals, e);
    DeliveredOnce(w'.log, g.id, g.rows, w'.slot.forwarded)
  }

  lemma RunDelivers(w: World, g: Generation, arrivals: seq<Arrival>, e: Env)
    requires WellSized(w.slot) && EnvOk(e) && ValidGeneration(g) && ValidMarks(Marks(arrivals), e.r)
    requires NotHolding(w.slot, g.id) && w.log == [] && |arrivals| > 0
    requires Correct(e.codec, e.r) && GateWithinParity(Marks(arrivals), e.r)
    ensures Delivers(w, g, arrivals, e)
  {
    RunFollowsSet(w, g, arrivals, e);
    RunKeepsBytes(w, g, arrivals, e);
    var w' := Run(w, g, arrivals, e);
    DeliveriesAgree(w'.log, g.id, Rows(w'.slot), g.rows, w'.slot.forwarded);
  }

  // ----- and only then

  ghost predicate HoldsRow(w: World, g: Generation, arrivals: seq<Arrival>, e: Env, i: nat, row: Packet)
    requires WellSized(w.slot) && EnvOk(e) && ValidGeneration(g) && i < K
  {
    && ValidMarks(Marks(arrivals), e.r)
    && Run(w, g, arrivals, e).slot.present[i] && Run(w, g, arrivals, e).slot.data[i] == row
  }

  lemma LastStepKeepsRow(w: World, g: Generation, arrivals: seq<Arrival>, e: Env, i: nat, row: Packet)
    requires WellSized(w.slot) && EnvOk(e) && ValidGeneration(g) && ValidMarks(Marks(arrivals), e.r)
    requires NotHolding(w.slot, g.id) && w.log == [] && |arrivals| > 1 && i < K
    requires HoldsRow(w, g, arrivals[..|arrivals| - 1], e, i, row)
    ensures HoldsRow(w, g, arrivals, e, i, row)
  {
    var last := |arrivals| - 1;
    var s0, s1 := LastStep(w, g, arrivals, e);
    StepKeepsRows(s0, s1, Run(w, g, arrivals, e).slot, g, e.codec, e.r, Marks(arrivals[..last]), arrivals[last].mark,
                  i);
  }

  /** What a slot holds after some fragments it holds to the end. */
  lemma {:induction false} RunKeepsRow(w: World, g: Generation, head: seq<Arrival>, tail: seq<Arrival>, e: Env, i: nat,
                                       row: Packet)
    requires WellSized(w.slot) && EnvOk(e) && ValidGeneration(g) && ValidMarks(Marks(head + tail), e.r)
    requires NotHolding(w.slot, g.id) && w.log == [] && |head| > 0 && i < K
    requires HoldsRow(w, g, head, e, i, row)
    ensures HoldsRow(w, g, head + tail, e, i, row)
    decreases |tail|
  {
    if |tail| == 0 {
      assert head + tail == head;
    } else {
      var all, shorter := head + tail, head + tail[..|tail| - 1];
      assert all[..|all| - 1] == shorter;
      MarksSplit(all);
      RunKeepsRow(w, g, head, tail[..|tail| - 1], e, i, row);
      LastStepKeepsRow(w, g, all, e, i, row);
    }
  }

  /** A generation whose every column is `d`. */
  function Uniform(id: nat, len: nat, d: seq<Byte>): Generation
    requires |d| == K
  {
    Generation(id, len, seq(K, i requires 0 <= i < K => Repeat(d[i], len)))
  }

  /** Decoding with more than r packets missing rebuilds some row of a uniform generation wrongly. */
  lemma StepCorrupts(s0: Slot, s1: Slot, s2: Slot, g: Generation, c: Codec, r: nat, ms: seq<Mark>, m: Mark,
                     d: seq<Byte>, i: nat)
    requires r <= MAX_PARITY && Shaped(c, r) && ValidGeneration(g) && SlotStep(s0, s1, s2, g, c, r, ms, m)
    requires ParityComplete(ms + [m], r) && !ParityComplete(ms, r)
    requires RowsAreGenuine(s1, g) && |d| == K && g == Uniform(g.id, g.len, d)
    requires i < K && !DataSeen(ms + [m])[i]
    requires var present := DataSeen(ms + [m]);
      c.decode(Received(present, d + c.encode(d)), Missing(present))[i] != d[i]
    ensures s2.present[i] && s2.data[i][..g.len] != g.rows[i]
  {
    FullIsAllTrue(s1.present);
    ColumnIsReceived(s1, g, c, r, 0);
    assert Column(g.rows, 0) == d;
    assert s2.data[i][0] == DecodedByte(s1, c, r, i, 0) != d[i];
    assert s2.data[i][..g.len][0] != g.rows[i][0];
  }

  lemma UnrestoredByte(c: Codec, r: nat, present: seq<bool>) returns (d: seq<Byte>, i: nat)
    requires Shaped(c, r) && |present| == K && |Missing(present)| > r
    ensures |d| == K && i < K && !present[i]
    ensures c.decode(Received(present, d + c.encode(d)), Missing(present))[i] != d[i]
  {
    NoCodecRestoresMore(c, r, present);
    d :| |d| == K && !Restores(c, r, present, d);
    i :| 0 <= i < K && !present[i] && c.decode(Received(present, d + c.encode(d)), Missing(present))[i] != d[i];
  }

  /** The gate opens with more than r packets missing: some packet of some generation is rebuilt wrongly. */
  lemma EarlyGateCorruptsRow(w: World, id: nat, len: nat, arrivals: seq<Arrival>, e: Env)
    returns (g: Generation, i: nat)
    requires WellSized(w.slot) && EnvOk(e) && id < UINT16 && MIN_IP <= len <= MAX_PKT_LEN
    requires ValidMarks(Marks(arrivals), e.r) && NotHolding(w.slot, id) && w.log == [] && |arrivals| > 0
    requires GateOpensAt(Marks(arrivals), e.r, |arrivals|) && |Missing(DataSeen(Marks(arrivals)))| > e.r
    ensures ValidGeneration(g) && g.id == id && g.len == len && i < K
    ensures var s := Run(w, g, arrivals, e).slot; s.len == len && s.present[i] && s.data[i][..len] != g.rows[i]
  {
    var n, ms := |arrivals| - 1, Marks(arrivals);
    assert ms[..|ms|] == ms;
    var d: seq<Byte>;
    d, i := UnrestoredByte(e.codec, e.r, DataSeen(ms));
    g := Uniform(id, len, d);
    var s0, s1 := LastStep(w, g, arrivals, e);
    if n > 0 {
      NoGateWithin(ms, e.r, n);
      RunKeepsBytes(w, g, arrivals[..n], e);
    }
    var m := arrivals[n].mark;
    assert RowsAreGenuine(s0, g) && RowsAreGenuine(s1, g);
    StepCorrupts(s0, s1, Run(w, g, arrivals, e).slot, g, e.codec, e.r, ms[..n], m, d, i);
  }

  lemma NoGateWithin(ms: seq<Mark>, r: nat, n: nat)
    requires n <= |ms| && !ParityComplete(ms[..n], r)
    ensures GateWithinParity(ms[..n], r)
  {
    forall k | 0 < k <= n && GateOpensAt(ms[..n], r, k)
      ensures false
    {
      ParityGrows(ms[..n], r, k);
    }
  }

  lemma WrongRowGoesOut(w: World, g: Generation, ms: seq<Mark>, e: Env, i: nat)
    requires EnvOk(e) && ValidGeneration(g) && g.len >= MIN_IP && Tracks(w.slot, w.log, g, e.codec, e.r, ms)
    requires i < K && w.slot.forwarded[i] && Rows(w.slot)[i] != g.rows[i]
    ensures exists k :: 0 <= k < |w.log| && w.log[k].index == i && w.log[k].pkt != g.rows[i]
  {
    assert IsAmong(w.log, i);
    var k :| 0 <= k < |w.log| && w.log[k].index == i;
    assert w.log[k].pkt == Rows(w.slot)[i];
  }

  /** What went wrong at the n-th arrival stays wrong. */
  lemma WrongRowStays(w: World, g: Generation, head: seq<Arrival>, rest: seq<Arrival>, arrivals: seq<Arrival>, e: Env,
                      i: nat)
    requires WellSized(w.slot) && EnvOk(e) && ValidGeneration(g) && g.len >= MIN_IP && arrivals == head + rest
    requires ValidMarks(Marks(head), e.r) && ValidMarks(Marks(arrivals), e.r) && NotHolding(w.slot, g.id)
    requires w.log == [] && |head| > 0 && i < K
    requires var s := Run(w, g, head, e).slot; s.len == g.len && s.present[i] && s.data[i][..g.len] != g.rows[i]
    ensures !Delivers(w, g, arrivals, e)
  {
    RunKeepsRow(w, g, head, rest, e, i, Run(w, g, head, e).slot.data[i]);
    RunFollowsSet(w, g, arrivals, e);
    WrongRowGoesOut(Run(w, g, arrivals, e), g, Marks(arrivals), e, i);
  }

  lemma GateWithinHead(arrivals: seq<Arrival>, n: nat, r: nat) returns (head: seq<Arrival>, rest: seq<Arrival>)
    requires 0 < n <= |arrivals|
    requires ValidMarks(Marks(arrivals), r) && GateOpensAt(Marks(arrivals), r, n)
    ensures Marks(head) == Marks(arrivals)[..n] && ValidMarks(Marks(head), r) && GateOpensAt(Marks(head), r, |head|)
    ensures |head| == n && arrivals == head + rest
  {
    head, rest := arrivals[..n], arrivals[n..];
    assert Marks(head) == Marks(arrivals)[..n];
    assert Marks(head)[..n - 1] == Marks(arrivals)[..n - 1] && Marks(head)[..n] == Marks(head);
  }

  lemma EarlyGateCorrupts(w: World, id: nat, len: nat, arrivals: seq<Arrival>, e: Env, n: nat) returns (g: Generation)
    requires WellSized(w.slot) && EnvOk(e) && id < UINT16 && MIN_IP <= len <= MAX_PKT_LEN
    requires ValidMarks(Marks(arrivals), e.r) && NotHolding(w.slot, id) && w.log == []
    requires 0 < n <= |arrivals| && GateOpensAt(Marks(arrivals), e.r, n) &&
      |Missing(DataSeen(Marks(arrivals)[..n]))| > e.r
    ensures ValidGeneration(g) && g.id == id && g.len == len && !Delivers(w, g, arrivals, e)
  {
    var head, rest := GateWithinHead(arrivals, n, e.r);
    var i: nat;
    g, i := EarlyGateCorruptsRow(w, id, len, head, e);
    WrongRowStays(w, g, head, rest, arrivals, e, i);
  }

  /** For a correct codec and any arrival pattern of one generation: every content is delivered byte-identical, each
      packet exactly once, if and only if at most r packets were missing when the parity became complete. */
  lemma DeliveredIffGateWithinParity(w: World, id: nat, len: nat, arrivals: seq<Arrival>, e: Env)
    requires WellSized(w.slot) && EnvOk(e) && id < UINT16 && MIN_IP <= len <= MAX_PKT_LEN
    requires ValidMarks(Marks(arrivals), e.r) && NotHolding(w.slot, id) && w.log == [] && |arrivals| > 0 &&
      Correct(e.codec, e.r)
    ensures (forall g :: ValidGeneration(g) && g.id == id && g.len == len ==> Delivers(w, g, arrivals, e))
            <==> GateWithinParity(Marks(arrivals), e.r)
  {
    if GateWithinParity(Marks(arrivals), e.r) {
      forall g | ValidGeneration(g) && g.id == id && g.len == len
        ensures Delivers(w, g, arrivals, e)
      {
        RunDelivers(w, g, arrivals, e);
      }
    } else {
      var n :| 0 < n <= |arrivals| && GateOpensAt(Marks(arrivals), e.r, n) &&
        |Missing(DataSeen(Marks(arrivals)[..n]))| > e.r;
      var g := EarlyGateCorrupts(w, id, len, arrivals, e, n);
    }
  }
}
