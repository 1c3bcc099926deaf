/** What the Reed-Solomon receiver's fragment and generation counters count, on everything that can arrive of a host's
    run. */
module RsCounts {
  import opened Base
  import opened Deliveries
  import opened RsCodec
  import opened Wire
  import opened RsSlot
  import opened RsSlotLaws
  import opened RsGeneration
  import opened RsGateway
  import opened RsTable
  import opened RsComposition
  import RsSystem
  import RsDelivery

  // ----- counting along the fragments that arrive

  /** Fragment x is the first copy of a packet, and came before the parity of its generation was complete. */
  ghost predicate IsNewData(before: seq<Sent>, x: Sent, r: nat) {
    x.mark.DataMark? && !IsOn(before, x.serial, x.mark) && !ParityComplete(MarksOf(before, x.serial), r)
  }

  /** It is the first copy of a parity fragment. */
  ghost predicate IsNewParity(before: seq<Sent>, x: Sent) {
    x.mark.ParityMark? && !IsOn(before, x.serial, x.mark)
  }

  /** It is the first fragment of its generation. */
  ghost predicate IsNewGeneration(before: seq<Sent>, x: Sent) {
    forall k :: 0 <= k < |before| ==> before[k].serial != x.serial
  }

  ghost function NewData(xs: seq<Sent>, r: nat): nat {
    if |xs| == 0 then 0
    else NewData(xs[..|xs| - 1], r) + if IsNewData(xs[..|xs| - 1], xs[|xs| - 1], r) then 1 else 0
  }

  ghost function NewParity(xs: seq<Sent>): nat {
    if |xs| == 0 then 0
    else NewParity(xs[..|xs| - 1]) + if IsNewParity(xs[..|xs| - 1], xs[|xs| - 1]) then 1 else 0
  }

  ghost function NewGenerations(xs: seq<Sent>): nat {
    if |xs| == 0 then 0
    else NewGenerations(xs[..|xs| - 1]) + if IsNewGeneration(xs[..|xs| - 1], xs[|xs| - 1]) then 1 else 0
  }

  // ----- forwarding and decoding do not count fragments

  ghost predicate SameCounts(st: Stats, st': Stats) {
    && st'.dataFragments == st.dataFragments && st'.parityFragments == st.parityFragments
    && st'.generations == st.generations
  }

  lemma {:induction false} OriginalsKeepCounts(w: World, n: nat, e: Env)
    requires WellSized(w.slot) && n <= K
    ensures SameCounts(w.stats, ForwardOriginals(w, n, e).stats)
  {
    if n == 0 {
    } else {
      OriginalsKeepCounts(w, n - 1, e);
    }
  }

  lemma {:induction false} RepairedKeepCounts(w: World, n: nat, e: Env)
    requires WellSized(w.slot) && n <= K
    ensures SameCounts(w.stats, ForwardRepaired(w, n, e).stats)
  {
    if n == 0 {
    } else {
      RepairedKeepCounts(w, n - 1, e);
    }
  }

  lemma ProcessKeepsCounts(w: World, e: Env)
    requires WellSized(w.slot) && EnvOk(e)
    ensures SameCounts(w.stats, Process(w, e).stats)
  {
    if w.slot.inUse && w.slot.len > 0 {
      OriginalsKeepCounts(w, K, e);
      var w1 := ForwardOriginals(w, K, e);
      DecodeKeepsCounts(w1, e);
      CompleteKeepsCounts(Decode(w1, e));
    }
  }

  lemma DecodeKeepsCounts(w: World, e: Env)
    requires WellSized(w.slot) && EnvOk(e)
    ensures SameCounts(w.stats, Decode(w, e).stats)
  {
    if GateOpen(w.slot, e.r) {
      RepairedKeepCounts(DecodeColumns(w, e), K, e);
    }
  }

  lemma CompleteKeepsCounts(w: World)
    requires WellSized(w.slot)
    ensures SameCounts(w.stats, Complete(w).stats)
  {
  }

  // ----- one fragment

  /** The counters before and after one fragment of a generation of which the places ms have been seen. */
  ghost predicate CountsOne(st: Stats, st': Stats, ms: seq<Mark>, m: Mark, r: nat) {
    && st'.dataFragments == st.dataFragments + (if m.DataMark? && m !in ms && !ParityComplete(ms, r) then 1 else 0)
    && st'.parityFragments == st.parityFragments + (if m.ParityMark? && m !in ms then 1 else 0)
    && st'.generations == st.generations + (if ms == [] then 1 else 0)
  }

  lemma StoreCounts(w: World, outs: seq<Delivery>, g: Generation, m: Mark, e: Env, ms: seq<Mark>)
    requires EnvOk(e) && ValidGeneration(g) && ValidMark(m, e.r) && RsDelivery.Tracks(w.slot, outs, g, e.codec, e.r, ms)
    ensures var f := FragmentOf(e.codec, e.r, g, m);
      && Acceptable(f) && Storable(f, e.r)
      && var st, st' := w.stats, Store(w, f, e.r).stats;
         && st'.dataFragments ==
            st.dataFragments + (if m.DataMark? && m !in ms && !ParityComplete(ms, e.r) then 1 else 0)
         && st'.parityFragments == st.parityFragments + (if m.ParityMark? && m !in ms then 1 else 0)
         && st'.generations == st.generations
  {
    RsDelivery.StoreLaw(w, outs, g, m, e, ms);
    if m.DataMark? {
      assert w.slot.present[m.i] == Settled(DataSeen(ms), ParityComplete(ms, e.r))[m.i];
    } else {
      assert w.slot.parityPresent[m.p] == ParitySeen(ms)[m.p];
    }
  }

  lemma HandlerCounts(w: World, outs: seq<Delivery>, g: Generation, m: Mark, e: Env, ms: seq<Mark>)
    requires WellSized(w.slot) && EnvOk(e) && ValidGeneration(g) && ValidMark(m, e.r)
    requires if ms == [] then RsDelivery.NotHolding(w.slot, g.id) && outs == []
             else RsDelivery.Tracks(w.slot, outs, g, e.codec, e.r, ms)
    ensures var f := FragmentOf(e.codec, e.r, g, m);
      Acceptable(f) && CountsOne(w.stats, OnFragment(w, f, e).stats, ms, m, e.r)
  {
    var f := FragmentOf(e.codec, e.r, g, m);
    RsDelivery.HandlerIsLookupStoreProcess(w, g, m, e);
    RsDelivery.LookupTracks(w, outs, g, f, e, ms);
    var w1 := Lookup(w, f, e);
    StoreCounts(w1, outs, g, m, e, ms);
    ProcessKeepsCounts(Store(w1, f, e.r), e);
  }

  // ----- whole runs

  lemma {:induction false} NoMarksYet(xs: seq<Sent>, s: nat)
    ensures MarksOf(xs, s) == [] <==> forall k :: 0 <= k < |xs| ==> xs[k].serial != s
    decreases |xs|
  {
    if |xs| == 0 {
    } else {
      NoMarksYet(xs[..|xs| - 1], s);
    }
  }

  lemma StepCounts(id: Ideal, gw: Gateway, xs: seq<Sent>, x: Sent, d: Datagram, e: Env)
    requires EnvOk(e) && HistoryOk(gw) && ValidIdeal(id)
    requires Genuine(gw, e.codec, e.r, x) && d.serial == x.serial && d.frag == x.frag && Wellformed(d)
    requires Follows(id, gw, e.codec, e.r, xs, x.serial)
    ensures CountsOne(id.stats, OnIdeal(id, d, e).stats, MarksOf(xs, x.serial), x.mark, e.r)
  {
    FragmentBelongs(gw, e.codec, e.r, x);
    HandlerCounts(World(Entry(id.slots, x.serial), id.stats, []), Of(id.log, x.serial), GenOf(gw, x.serial), x.mark,
                  At(e, d), MarksOf(xs, x.serial));
  }

  /** The counters after all of xs. */
  ghost predicate Counted(st: Stats, xs: seq<Sent>, r: nat) {
    st.dataFragments == NewData(xs, r) && st.parityFragments == NewParity(xs) && st.generations == NewGenerations(xs)
  }

  lemma OneMoreCounted(st: Stats, st': Stats, before: seq<Sent>, x: Sent, r: nat)
    requires Counted(st, before, r) && CountsOne(st, st', MarksOf(before, x.serial), x.mark, r)
    ensures Counted(st', before + [x], r)
  {
    assert (before + [x])[..|before|] == before;
    MarksAreItems(before, x.serial);
    NoMarksYet(before, x.serial);
  }

  lemma {:induction false} RunIsCounted(gw: Gateway, xs: seq<Sent>, trace: seq<Datagram>, e: Env)
    requires EnvOk(e) && HistoryOk(gw) && AllGenuine(gw, e.codec, e.r, xs) && Carries(trace, xs)
    ensures AllWellformed(trace) && Counted(ReceiveIdeal(trace, e).stats, xs, e.r)
    decreases |xs|
  {
    if |xs| == 0 {
    } else {
      var n := |xs| - 1;
      var before, x, earlier, d := xs[..n], xs[n], trace[..n], trace[n];
      assert xs == before + [x] && trace == earlier + [d];
      RunIsCounted(gw, before, earlier, e);
      ReceiverFollows(gw, before, earlier, e);
      GenuineIsWellformed(gw, e.codec, e.r, x, d);
      UnfoldReceive(earlier, d, e);
      StepCounts(ReceiveIdeal(earlier, e), gw, before, x, d, e);
      OneMoreCounted(ReceiveIdeal(earlier, e).stats, ReceiveIdeal(earlier + [d], e).stats, before, x, e.r);
    }
  }

  /** The receiver's counters of fragments and generations, on everything that arrives of a run of the host and the
      paths: data fragments are the first copies that come before their generation's parity is complete, parity
      fragments the first copies, and generations those of which anything has arrived. */
  lemma FragmentsAreCounted(s: RsSystem.System, trace: seq<Datagram>, e: Env)
    requires EnvOk(e) && Inv(s.gw, e.codec, e.r) && RsSystem.ChannelInv(s)
    requires Carries(trace, Items(s)) && Orderly(trace)
    ensures AllWellformed(trace) && Counted(Receive(trace, e).stats, Items(s), e.r)
  {
    ItemsAreGenuine(s, e.codec, e.r);
    RunIsCounted(s.gw, Items(s), trace, e);
    TableRefinesMap(trace, e);
  }

  // ----- times

  /** From s to s' the clock of the last forwarding moved exactly if something was forwarded. */
  ghost predicate Timed(s: Slot, s': Slot, now: nat) {
    && s'.firstRx == s.firstRx && |s'.forwarded| == |s.forwarded| == K
    && (forall i :: 0 <= i < K && s.forwarded[i] ==> s'.forwarded[i])
    && s'.lastFwd == if s'.forwarded == s.forwarded then s.lastFwd else now
  }

  lemma RowIsTimed(s: Slot, w: World, i: nat, original: bool, e: Env)
    requires WellSized(w.slot) && i < K && Timed(s, w.slot, e.now) && !w.slot.forwarded[i]
    ensures Timed(s, ForwardRow(w, i, original, e).slot, e.now)
  {
    assert !s.forwarded[i] && ForwardRow(w, i, original, e).slot.forwarded[i];
  }

  lemma {:induction false} OriginalsAreTimed(w: World, n: nat, e: Env)
    requires WellSized(w.slot) && n <= K
    ensures Timed(w.slot, ForwardOriginals(w, n, e).slot, e.now)
  {
    if n == 0 {
    } else {
      OriginalsAreTimed(w, n - 1, e);
      var w1 := ForwardOriginals(w, n - 1, e);
      if w1.slot.present[n - 1] && !w1.slot.forwarded[n - 1] {
        RowIsTimed(w.slot, w1, n - 1, true, e);
      }
    }
  }

  /** Rows that are missing have not been forwarded. */
  lemma {:induction false} RepairedAreTimed(s: Slot, w: World, n: nat, e: Env)
    requires WellSized(w.slot) && n <= K && ForwardedIsPresent(w.slot) && Timed(s, w.slot, e.now)
    ensures ForwardedIsPresent(ForwardRepaired(w, n, e).slot) && Timed(s, ForwardRepaired(w, n, e).slot, e.now)
  {
    if n == 0 {
    } else {
      RepairedAreTimed(s, w, n - 1, e);
      var w1 := ForwardRepaired(w, n - 1, e);
      if !w1.slot.present[n - 1] {
        RepairIsTimed(s, w1, n - 1, e);
      }
    }
  }

  lemma RepairIsTimed(s: Slot, w: World, i: nat, e: Env)
    requires WellSized(w.slot) && i < K && ForwardedIsPresent(w.slot) && Timed(s, w.slot, e.now) && !w.slot.present[i]
    ensures var w' := ForwardRow(w.(slot := w.slot.(present := w.slot.present[i := true])), i, false, e);
      ForwardedIsPresent(w'.slot) && Timed(s, w'.slot, e.now)
  {
    var w1 := w.(slot := w.slot.(present := w.slot.present[i := true]));
    RowIsTimed(s, w1, i, false, e);
    PresentRowGoesOut(w1, i, e);
  }

  lemma PresentRowGoesOut(w: World, i: nat, e: Env)
    requires WellSized(w.slot) && i < K && ForwardedIsPresent(w.slot) && w.slot.present[i]
    ensures ForwardedIsPresent(ForwardRow(w, i, false, e).slot)
  {
  }

  lemma {:induction false} OriginalsArePresent(w: World, n: nat, e: Env)
    requires WellSized(w.slot) && n <= K && ForwardedIsPresent(w.slot)
    ensures ForwardedIsPresent(ForwardOriginals(w, n, e).slot)
  {
    if n == 0 {
    } else {
      OriginalsArePresent(w, n - 1, e);
    }
  }

  lemma PassIsTimed(w: World, e: Env)
    requires WellSized(w.slot) && EnvOk(e) && ForwardedIsPresent(w.slot)
    ensures Timed(w.slot, Process(w, e).slot, e.now)
  {
    if w.slot.inUse && w.slot.len > 0 {
      OriginalsAreTimed(w, K, e);
      OriginalsArePresent(w, K, e);
      var w1 := ForwardOriginals(w, K, e);
      DecodeIsTimed(w.slot, w1, e);
      CompleteIsTimed(w.slot, Decode(w1, e), e.now);
    }
  }

  lemma DecodeIsTimed(s: Slot, w: World, e: Env)
    requires WellSized(w.slot) && EnvOk(e) && ForwardedIsPresent(w.slot) && Timed(s, w.slot, e.now)
    ensures Timed(s, Decode(w, e).slot, e.now)
  {
    if GateOpen(w.slot, e.r) {
      RepairedAreTimed(s, DecodeColumns(w, e), K, e);
    }
  }

  lemma CompleteIsTimed(s: Slot, w: World, now: nat)
    requires WellSized(w.slot) && Timed(s, w.slot, now)
    ensures Timed(s, Complete(w).slot, now)
  {
  }

  lemma OwnSlotIsKept(w: World, f: Fragment, e: Env)
    requires WellSized(w.slot) && Acceptable(f)
    requires w.slot.inUse && w.slot.genId == f.genId && w.slot.len == f.originalLen
    ensures Lookup(w, f, e) == w.(slot := w.slot.(firstRx := if w.slot.firstRx == 0 then e.now else w.slot.firstRx))
  {
  }

  lemma StoringKeepsTimes(w: World, f: Fragment, r: nat)
    requires WellSized(w.slot) && Acceptable(f) && r <= MAX_PARITY && Storable(f, r) && ForwardedIsPresent(w.slot)
    ensures var s, s' := w.slot, Store(w, f, r).slot;
      ForwardedIsPresent(s') && s'.forwarded == s.forwarded && s'.firstRx == s.firstRx && s'.lastFwd == s.lastFwd
  {
  }

  /** The two times of a generation, on its own slot: when its first fragment came, kept from then on, and when a row
      was last handed on; a clock reading of 0 counts as none. */
  lemma TimesAreKept(w: World, f: Fragment, e: Env)
    requires WellSized(w.slot) && EnvOk(e) && Acceptable(f) && ForwardedIsPresent(w.slot)
    requires w.slot.inUse && w.slot.genId == f.genId && w.slot.len == f.originalLen
    ensures var s, s' := w.slot, OnFragment(w, f, e).slot;
      && s'.firstRx == (if s.firstRx == 0 then e.now else s.firstRx)
      && s'.lastFwd == (if s'.forwarded == s.forwarded then s.lastFwd else e.now)
  {
    OwnSlotIsKept(w, f, e);
    if Storable(f, e.r) {
      StoringKeepsTimes(Lookup(w, f, e), f, e.r);
      PassIsTimed(Store(Lookup(w, f, e), f, e.r), e);
    }
  }

  // ----- datagrams that change nothing

  /** A datagram without a whole header, or whose header announces nothing, more than a packet, or more than follows, is
      ignored. */
  lemma BadDatagramIsIgnored(rx: Receiver, buf: seq<Byte>, e: Env)
    requires ValidReceiver(rx) && EnvOk(e)
    requires |buf| >= 8 ==> var len := 256 * Value(buf[4]) + Value(buf[5]); len == 0 || len > 1500 || len > |buf| - 8
    ensures OnDatagram(rx, buf, e) == rx
  {
  }

  lemma SameFragment(w: World, f: Fragment, f': Fragment, e: Env)
    requires WellSized(w.slot) && EnvOk(e) && Acceptable(f) && Acceptable(f')
    requires f' == f.(payload := f'.payload) && f.payload <= f'.payload
    ensures OnFragment(w, f, e) == OnFragment(w, f', e)
  {
    SameLookup(w, f, f', e);
    if Storable(f, e.r) {
      SameStore(Lookup(w, f, e), f, f', e.r);
    }
  }

  lemma SameLookup(w: World, f: Fragment, f': Fragment, e: Env)
    requires WellSized(w.slot) && Acceptable(f) && Acceptable(f') && f' == f.(payload := f'.payload)
    ensures Lookup(w, f, e) == Lookup(w, f', e)
  {
  }

  lemma SameStore(w: World, f: Fragment, f': Fragment, r: nat)
    requires WellSized(w.slot) && Acceptable(f) && Acceptable(f') && r <= MAX_PARITY
    requires Storable(f, r) && Storable(f', r)
    requires f' == f.(payload := f'.payload) && f.payload <= f'.payload
    ensures Store(w, f, r) == Store(w, f', r)
  {
    assert f.payload[..f.originalLen] == f'.payload[..f.originalLen];
  }

  /** Bytes behind the announced length are ignored. */
  lemma TrailingBytesAreIgnored(rx: Receiver, buf: seq<Byte>, more: seq<Byte>, e: Env)
    requires ValidReceiver(rx) && EnvOk(e)
    requires |buf| >= 8 && 0 < 256 * Value(buf[4]) + Value(buf[5]) <= 1500
    requires 256 * Value(buf[4]) + Value(buf[5]) <= |buf| - 8
    ensures OnDatagram(rx, buf + more, e) == OnDatagram(rx, buf, e)
  {
    var f, f' := Parse(buf).value, Parse(buf + more).value;
    assert (buf + more)[0..2] == buf[0..2] && (buf + more)[4..6] == buf[4..6];
    assert (buf + more)[8..] == buf[8..] + more;
    SameFragment(World(rx.table[f.genId % MAX_GENS], rx.stats, []), f, f', e);
  }

  /** A fragment of the slot's own generation and length with an unknown type, or an index outside its type's range,
      leaves at most its time. */
  lemma UnknownPlaceStoresNothing(w: World, f: Fragment, e: Env)
    requires WellSized(w.slot) && EnvOk(e) && Acceptable(f)
    requires w.slot.inUse && w.slot.genId == f.genId && w.slot.len == f.originalLen
    requires !(f.kind == 0 && f.index < 8) && !(f.kind == 1 && 8 <= f.index < 8 + e.r)
    ensures OnFragment(w, f, e) ==
            w.(slot := w.slot.(firstRx := if w.slot.firstRx == 0 then e.now else w.slot.firstRx))
  {
    OwnSlotIsKept(w, f, e);
  }
}
