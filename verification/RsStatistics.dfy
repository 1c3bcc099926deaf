/** The receiver's counters: on every stream of datagrams, well-formed or not, they agree with what was sent and with
    the generations that were completed. */
module RsStatistics {
  import opened Base
  import opened Deliveries
  import opened RsCodec
  import opened Wire
  import opened RsSlot
  import opened RsSlotLaws
  import opened RsTable

  // ----- counters of sends

  /** Between w and w' a counter moved by exactly what was sent. */
  ghost predicate Balances(w: World, w': World, c: Counter) {
    Balanced(w.stats.sent, w.log, w'.stats.sent, w'.log, c)
  }

  lemma RowBalances(w: World, i: nat, original: bool, e: Env, c: Counter)
    requires WellSized(w.slot) && i < K
    ensures Balances(w, ForwardRow(w, i, original, e), c)
  {
    if w.slot.len >= MIN_IP {
      var d := Delivery(w.slot.genId, i, w.slot.data[i][..w.slot.len], original, e.accepts(i));
      SendBalances(w.stats.sent, w.log, d, c);
    }
  }

  lemma BalanceChain(w: World, w1: World, w2: World, c: Counter)
    requires Balances(w, w1, c) && Balances(w1, w2, c)
    ensures Balances(w, w2, c)
  {
  }

  lemma {:induction false} OriginalsBalance(w: World, n: nat, e: Env, c: Counter)
    requires WellSized(w.slot) && n <= K
    ensures Balances(w, ForwardOriginals(w, n, e), c)
  {
    if n == 0 {
    } else {
      OriginalsBalance(w, n - 1, e, c);
      RowBalances(ForwardOriginals(w, n - 1, e), n - 1, true, e, c);
    }
  }

  lemma {:induction false} RepairedBalance(w: World, n: nat, e: Env, c: Counter)
    requires WellSized(w.slot) && n <= K
    ensures Balances(w, ForwardRepaired(w, n, e), c)
  {
    if n == 0 {
    } else {
      RepairedBalance(w, n - 1, e, c);
      var w1 := ForwardRepaired(w, n - 1, e);
      RowBalances(w1.(slot := w1.slot.(present := w1.slot.present[n - 1 := true])), n - 1, false, e, c);
    }
  }

  lemma DecodeBalances(w: World, e: Env, c: Counter)
    requires WellSized(w.slot) && EnvOk(e)
    ensures Balances(w, Decode(w, e), c)
  {
    RepairedBalance(DecodeColumns(w, e), K, e, c);
  }

  lemma CompleteBalances(w: World, c: Counter)
    requires WellSized(w.slot)
    ensures Balances(w, Complete(w), c)
  {
  }

  lemma ProcessBalances(w: World, e: Env, c: Counter)
    requires WellSized(w.slot) && EnvOk(e)
    ensures Balances(w, Process(w, e), c)
  {
    OriginalsBalance(w, K, e, c);
    var w1 := ForwardOriginals(w, K, e);
    DecodeBalances(w1, e, c);
    CompleteBalances(Decode(w1, e), c);
  }

  // ----- payload accounting of one slot

  /** Payload bytes of the forwarded rows among the first n. */
  function Paid(s: Slot, n: nat): nat
    requires WellSized(s) && n <= K
  {
    if n == 0 then 0
    else Paid(s, n - 1) + if s.forwarded[n - 1] then PayloadBytes(s.data[n - 1][..s.len]) else 0
  }

  lemma {:induction false} PaidDepends(s: Slot, s': Slot, n: nat)
    requires WellSized(s) && WellSized(s') && n <= K && s.len == s'.len
    requires forall i :: 0 <= i < n ==> s.forwarded[i] == s'.forwarded[i]
    requires forall i :: 0 <= i < n && s.forwarded[i] ==> s.data[i] == s'.data[i]
    ensures Paid(s, n) == Paid(s', n)
  {
    if n == 0 {
    } else {
      PaidDepends(s, s', n - 1);
    }
  }

  lemma {:induction false} PaidFlip(s: Slot, i: nat, n: nat)
    requires WellSized(s) && i < n <= K && !s.forwarded[i]
    ensures var s' := s.(forwarded := s.forwarded[i := true]);
      Paid(s', n) == Paid(s, n) + PayloadBytes(s.data[i][..s.len])
  {
    var s' := s.(forwarded := s.forwarded[i := true]);
    if i == n - 1 {
      PaidDepends(s, s', n - 1);
    } else {
      PaidFlip(s, i, n - 1);
    }
  }

  /** What every slot keeps between two fragments. */
  ghost predicate SlotInv(s: Slot) {
    && WellSized(s)
    && s.forwarded == s.present
    && s.usefulBytes == Paid(s, K)
    && (s.reported <==> Count(s.forwarded) == K)
    && (s.len == 0 ==> Count(s.forwarded) == 0)
    && (s.attempted ==> s.reported)
    && !s.succeeded == !s.attempted == !s.parityCounted
  }

  /** While a fragment is handled. */
  ghost predicate Accounted(s: Slot) {
    WellSized(s) && ForwardedIsPresent(s) && s.usefulBytes == Paid(s, K)
  }

  /** The clock has left its mark on a slot from which something was forwarded. */
  ghost predicate Timed(s: Slot)
    requires WellSized(s)
  {
    forall i :: 0 <= i < K && s.forwarded[i] ==> s.lastFwd > 0
  }

  /** Forwarding changes only the flags, the totals and the clock mark. */
  ghost predicate OnlyForwards(s: Slot, s': Slot) {
    s' == s.(present := s'.present, forwarded := s'.forwarded, lastFwd := s'.lastFwd, usefulBytes := s'.usefulBytes)
  }

  ghost predicate SameButSends(st: Stats, st': Stats) {
    st' == st.(sent := st'.sent)
  }

  lemma RowIsAccounted(w: World, i: nat, original: bool, e: Env)
    requires i < K && Accounted(w.slot) && w.slot.present[i] && !w.slot.forwarded[i]
    ensures var w' := ForwardRow(w, i, original, e);
      && Accounted(w'.slot) && OnlyForwards(w.slot, w'.slot) && SameButSends(w.stats, w'.stats)
      && w'.slot.present == w.slot.present && w'.slot.forwarded == w.slot.forwarded[i := true]
      && (e.now > 0 && Timed(w.slot) ==> Timed(w'.slot))
  {
    PaidFlip(w.slot, i, K);
    PaidDepends(w.slot.(forwarded := w.slot.forwarded[i := true]), ForwardRow(w, i, original, e).slot, K);
  }

  lemma MarkingIsAccounted(s: Slot, i: nat)
    requires i < K && Accounted(s)
    ensures Accounted(s.(present := s.present[i := true]))
  {
    PaidDepends(s, s.(present := s.present[i := true]), K);
  }

  /** After the first n rows: what is present among them is forwarded, and nothing but flags and totals changed. */
  ghost predicate OriginalsDone(w: World, w': World, n: nat, e: Env)
    requires n <= K && WellSized(w.slot)
  {
    && Accounted(w'.slot) && OnlyForwards(w.slot, w'.slot) && SameButSends(w.stats, w'.stats)
    && w'.slot.present == w.slot.present
    && (forall i :: 0 <= i < K ==> w'.slot.forwarded[i] == if i < n then w.slot.present[i] else w.slot.forwarded[i])
    && (e.now > 0 && Timed(w.slot) ==> Timed(w'.slot))
  }

  lemma OriginalStepIsAccounted(w: World, w1: World, w': World, n: nat, e: Env)
    requires 0 < n <= K && Accounted(w.slot) && OriginalsDone(w, w1, n - 1, e)
    requires w' == (if w1.slot.present[n - 1] && !w1.slot.forwarded[n - 1] then ForwardRow(w1, n - 1, true, e) else w1)
    ensures OriginalsDone(w, w', n, e)
  {
    if w1.slot.present[n - 1] && !w1.slot.forwarded[n - 1] {
      RowIsAccounted(w1, n - 1, true, e);
    }
  }

  lemma UnfoldOriginals(w: World, n: nat, e: Env)
    requires WellSized(w.slot) && 0 < n <= K
    ensures var w1, w' := ForwardOriginals(w, n - 1, e), ForwardOriginals(w, n, e);
      w' == (if w1.slot.present[n - 1] && !w1.slot.forwarded[n - 1] then ForwardRow(w1, n - 1, true, e) else w1)
  {
  }

  lemma {:induction false} OriginalsAreAccounted(w: World, n: nat, e: Env)
    requires n <= K && Accounted(w.slot)
    ensures OriginalsDone(w, ForwardOriginals(w, n, e), n, e)
  {
    if n == 0 {
    } else {
      OriginalsAreAccounted(w, n - 1, e);
      UnfoldOriginals(w, n, e);
      OriginalStepIsAccounted(w, ForwardOriginals(w, n - 1, e), ForwardOriginals(w, n, e), n, e);
    }
  }

  /** A missing row is marked and handed on. */
  lemma RepairIsAccounted(w: World, i: nat, e: Env)
    requires i < K && Accounted(w.slot) && !w.slot.present[i] && w.slot.forwarded == w.slot.present
    ensures var w' := ForwardRow(w.(slot := w.slot.(present := w.slot.present[i := true])), i, false, e);
      && Accounted(w'.slot) && OnlyForwards(w.slot, w'.slot) && SameButSends(w.stats, w'.stats)
      && w'.slot.forwarded == w'.slot.present == w.slot.present[i := true]
      && (e.now > 0 && Timed(w.slot) ==> Timed(w'.slot))
  {
    MarkingIsAccounted(w.slot, i);
    RowIsAccounted(w.(slot := w.slot.(present := w.slot.present[i := true])), i, false, e);
  }

  /** After the first n rows: each of them is present and forwarded. */
  ghost predicate RepairedDone(w: World, w': World, n: nat, e: Env)
    requires n <= K && WellSized(w.slot)
  {
    && Accounted(w'.slot) && OnlyForwards(w.slot, w'.slot) && SameButSends(w.stats, w'.stats)
    && w'.slot.forwarded == w'.slot.present
    && (forall i :: 0 <= i < K ==> w'.slot.present[i] == (i < n || w.slot.present[i]))
    && (e.now > 0 && Timed(w.slot) ==> Timed(w'.slot))
  }

  /** The row after the first n - 1: marked and handed on if it was missing. */
  function RepairNext(w: World, n: nat, e: Env): World
    requires WellSized(w.slot) && 0 < n <= K
  {
    if w.slot.present[n - 1] then w
    else ForwardRow(w.(slot := w.slot.(present := w.slot.present[n - 1 := true])), n - 1, false, e)
  }

  lemma RepairStepIsAccounted(w: World, w1: World, n: nat, e: Env)
    requires 0 < n <= K && WellSized(w.slot) && RepairedDone(w, w1, n - 1, e)
    ensures RepairedDone(w, RepairNext(w1, n, e), n, e)
  {
    if !w1.slot.present[n - 1] {
      RepairIsAccounted(w1, n - 1, e);
    }
  }

  lemma UnfoldRepaired(w: World, n: nat, e: Env)
    requires WellSized(w.slot) && 0 < n <= K
    ensures ForwardRepaired(w, n, e) == RepairNext(ForwardRepaired(w, n - 1, e), n, e)
  {
  }

  lemma {:induction false} RepairedAreAccounted(w: World, n: nat, e: Env)
    requires n <= K && Accounted(w.slot) && w.slot.forwarded == w.slot.present
    ensures RepairedDone(w, ForwardRepaired(w, n, e), n, e)
  {
    if n == 0 {
    } else {
      RepairedAreAccounted(w, n - 1, e);
      UnfoldRepaired(w, n, e);
      RepairStepIsAccounted(w, ForwardRepaired(w, n - 1, e), n, e);
    }
  }

  // ----- one handler call

  /** How the counters of completed generations move. */
  ghost predicate Moved(st: Stats, st': Stats, e: Env, newly: bool, decoded: bool, bytes: nat) {
    && st'.noLoss == st.noLoss + (if newly && !decoded then 1 else 0)
    && st'.repaired == st.repaired + (if newly && decoded then 1 else 0)
    && st'.decodeFailed == st.decodeFailed
    && st'.decodeCalls == st.decodeCalls + (if decoded then 1 else 0)
    && st'.parityConsumed == st.parityConsumed + (if decoded then e.r else 0)
    && st'.usefulBytes == st.usefulBytes + (if newly then bytes else 0)
  }

  lemma ColumnsAreAccounted(w: World, e: Env)
    requires EnvOk(e) && Accounted(w.slot)
    ensures var w' := DecodeColumns(w, e);
      Accounted(w'.slot) && w'.slot.forwarded == w.slot.forwarded && w'.slot.present == w.slot.present
      && w'.slot.lastFwd == w.slot.lastFwd
  {
    PaidDepends(w.slot, DecodeColumns(w, e).slot, K);
  }

  lemma SuccessIsAccounted(w: World)
    requires Accounted(w.slot) && forall i :: 0 <= i < K ==> w.slot.present[i]
    ensures Count(w.slot.present) == K && Accounted(w.slot.(succeeded := true))
  {
    CountExtremes(w.slot.present);
    PaidDepends(w.slot, w.slot.(succeeded := true), K);
  }

  /** Decoding a slot whose stored rows have all been forwarded. */
  lemma DecodeIsAccounted(w: World, e: Env)
    requires EnvOk(e) && Accounted(w.slot) && w.slot.forwarded == w.slot.present && !w.slot.parityCounted
    ensures var w', gate := Decode(w, e), GateOpen(w.slot, e.r);
      && Accounted(w'.slot) && w'.slot.forwarded == w'.slot.present
      && w'.slot.reported == w.slot.reported && w'.slot.firstRx == w.slot.firstRx && w'.slot.len == w.slot.len
      && (if gate then w'.slot.attempted && w'.slot.succeeded && w'.slot.parityCounted && Count(w'.slot.present) == K
                  else w' == w)
      && Moved(w.stats, w'.stats, e, false, gate, 0) && w'.stats.completed == w.stats.completed
      && (e.now > 0 && Timed(w.slot) ==> Timed(w'.slot))
  {
    if GateOpen(w.slot, e.r) {
      var w1 := DecodeColumns(w, e);
      ColumnsAreAccounted(w, e);
      RepairedAreAccounted(w1, K, e);
      SuccessIsAccounted(ForwardRepaired(w1, K, e));
    }
  }

  lemma CompleteIsAccounted(w: World, e: Env, decoded: bool)
    requires Accounted(w.slot) && w.slot.len > 0 && w.slot.forwarded == w.slot.present
    requires !w.slot.reported && (decoded ==> Count(w.slot.present) == K)
    requires w.slot.attempted == w.slot.succeeded == w.slot.parityCounted == decoded
    ensures var w', newly := Complete(w), Count(w.slot.present) == K;
      && SlotInv(w'.slot) && w'.slot.reported == newly && w'.slot.attempted == decoded
      && Paid(w'.slot, K) == Paid(w.slot, K) && w'.slot.data == w.slot.data && w'.slot.len == w.slot.len
      && w'.stats.noLoss == w.stats.noLoss + (if newly && !decoded then 1 else 0)
      && w'.stats.repaired == w.stats.repaired + (if newly && decoded then 1 else 0)
      && w'.stats.decodeFailed == w.stats.decodeFailed && w'.stats.decodeCalls == w.stats.decodeCalls
      && w'.stats.parityConsumed == w.stats.parityConsumed
      && w'.stats.usefulBytes == w.stats.usefulBytes + (if newly then Paid(w.slot, K) else 0)
      && (w.slot.firstRx > 0 && Timed(w.slot) ==> w'.stats.completed == w.stats.completed + (if newly then 1 else 0))
      && (Timed(w.slot) ==> Timed(w'.slot))
  {
    PaidDepends(w.slot, Complete(w).slot, K);
    CountExtremes(w.slot.present);
  }

  /** A pass over a slot that has not been reported yet: it is reported now exactly if everything is there or the gate
      opens, as repaired in the second case. */
  lemma ProcessIsAccounted(w: World, e: Env)
    requires EnvOk(e) && Accounted(w.slot) && w.slot.inUse && w.slot.len > 0
    requires !w.slot.reported && !w.slot.attempted && !w.slot.succeeded && !w.slot.parityCounted &&
      Count(w.slot.forwarded) < K
    ensures var w' := Process(w, e);
      var decoded := Count(w.slot.present) < K && e.r > 0 && AllParity(w.slot, e.r);
      && SlotInv(w'.slot) && w'.slot.reported == (Count(w.slot.present) == K || decoded) && w'.slot.attempted == decoded
      && Moved(w.stats, w'.stats, e, w'.slot.reported, decoded, Paid(w'.slot, K))
      && (e.now > 0 && Timed(w.slot) ==> Timed(w'.slot))
      && (e.now > 0 && w.slot.firstRx > 0 && Timed(w.slot) ==>
            w'.stats.completed == w.stats.completed + (if w'.slot.reported then 1 else 0))
  {
    OriginalsAreAccounted(w, K, e);
    var w1 := ForwardOriginals(w, K, e);
    assert w1.slot.forwarded == w1.slot.present;
    DecodeIsAccounted(w1, e);
    var w2 := Decode(w1, e);
    CompleteIsAccounted(w2, e, GateOpen(w1.slot, e.r));
  }

  // ----- one fragment

  /** A generation's entry in the statistics: its payload bytes, and whether it took the decoder. */
  datatype Report = Report(bytes: nat, decoded: bool)

  /** Payload bytes of all rows. */
  function RowsPayload(s: Slot, n: nat): nat
    requires WellSized(s) && n <= K
  {
    if n == 0 then 0 else RowsPayload(s, n - 1) + PayloadBytes(s.data[n - 1][..s.len])
  }

  /** A slot is reported when its last row has been forwarded. */
  function NewReport(before: Slot, after: Slot): seq<Report>
    requires WellSized(after)
  {
    if after.reported && !before.reported then [Report(RowsPayload(after, K), after.attempted)] else []
  }

  function ReportedBytes(reports: seq<Report>): nat {
    if |reports| == 0 then 0 else ReportedBytes(reports[..|reports| - 1]) + reports[|reports| - 1].bytes
  }

  function Decoded(reports: seq<Report>): nat {
    if |reports| == 0 then 0 else Decoded(reports[..|reports| - 1]) + if reports[|reports| - 1].decoded then 1 else 0
  }

  /** The counters moved by what the new reports say. */
  ghost predicate Follows(st: Stats, st': Stats, e: Env, reports: seq<Report>) {
    && st'.noLoss == st.noLoss + |reports| - Decoded(reports)
    && st'.repaired == st.repaired + Decoded(reports)
    && st'.decodeFailed == st.decodeFailed
    && st'.decodeCalls == st.decodeCalls + Decoded(reports)
    && st'.parityConsumed == st.parityConsumed + e.r * Decoded(reports)
    && st'.usefulBytes == st.usefulBytes + ReportedBytes(reports)
  }

  lemma {:induction false} PaidInFull(s: Slot, n: nat)
    requires WellSized(s) && n <= K && forall i :: 0 <= i < n ==> s.forwarded[i]
    ensures Paid(s, n) == RowsPayload(s, n)
  {
    if n == 0 {
    } else {
      PaidInFull(s, n - 1);
    }
  }

  lemma {:induction false} NothingPaid(s: Slot, n: nat)
    requires WellSized(s) && n <= K && forall i :: 0 <= i < n ==> !s.forwarded[i]
    ensures Paid(s, n) == 0
  {
    if n == 0 {
    } else {
      NothingPaid(s, n - 1);
    }
  }

  lemma EmptySlotInv(s: Slot)
    requires WellSized(s) && s.present == s.forwarded == Repeat(false, K)
    requires s.usefulBytes == 0 && !s.reported && !s.attempted && !s.succeeded && !s.parityCounted
    ensures SlotInv(s) && Timed(s)
  {
    CountExtremes(s.forwarded);
    NothingPaid(s, K);
  }

  /** A slot whose length is not known yet holds nothing. */
  lemma LengthlessIsEmpty(s: Slot)
    requires SlotInv(s) && s.len == 0
    ensures s.present == s.forwarded == Repeat(false, K) && s.usefulBytes == 0
    ensures !s.reported && !s.attempted && !s.succeeded && !s.parityCounted
  {
    CountExtremes(s.forwarded);
    assert s.forwarded == Repeat(false, K);
    NothingPaid(s, K);
  }

  lemma OpenKeepsSlot(s: Slot, id: nat)
    requires SlotInv(s)
    ensures SlotInv(Open(s, id)) && (Timed(s) ==> Timed(Open(s, id)))
  {
    if !(s.inUse && s.genId == id) {
      EmptySlotInv(Open(s, id));
    }
  }

  lemma StampKeepsSlot(s: Slot, firstRx: nat)
    requires SlotInv(s)
    ensures SlotInv(s.(firstRx := firstRx))
  {
    PaidDepends(s, s.(firstRx := firstRx), K);
  }

  lemma AdmitKeepsSlot(w: World, f: Fragment, e: Env)
    requires SlotInv(w.slot) && Acceptable(f)
    ensures var s' := Admit(w, f, e).slot;
      SlotInv(s') && s'.len > 0 && (e.now > 0 ==> s'.firstRx > 0) && (Timed(w.slot) ==> Timed(s'))
  {
    var s, s' := w.slot, Admit(w, f, e).slot;
    if s.len == f.originalLen {
      StampKeepsSlot(s, s'.firstRx);
    } else {
      if s.len == 0 {
        LengthlessIsEmpty(s);
      }
      EmptySlotInv(s');
    }
  }

  lemma LookupKeepsSlot(w: World, f: Fragment, e: Env)
    requires SlotInv(w.slot) && Acceptable(f)
    ensures var s' := Lookup(w, f, e).slot;
      SlotInv(s') && s'.len > 0 && (e.now > 0 ==> s'.firstRx > 0) && (Timed(w.slot) ==> Timed(s'))
  {
    var s := Open(w.slot, f.genId);
    OpenKeepsSlot(w.slot, f.genId);
    var wiped := !(w.slot.inUse && w.slot.genId == f.genId);
    var st := if wiped then w.stats.(generations := w.stats.generations + 1) else w.stats;
    AdmitKeepsSlot(w.(slot := s, stats := st), f, e);
  }

  lemma LookupKeepsCounters(w: World, f: Fragment, e: Env)
    requires WellSized(w.slot) && Acceptable(f)
    ensures var st' := Lookup(w, f, e).stats; st' == w.stats.(generations := st'.generations)
  {
  }

  /** What storing a fragment leaves as it was. */
  ghost predicate StoredOnly(w: World, w': World)
    requires WellSized(w.slot) && WellSized(w'.slot)
  {
    && w'.slot.inUse && w'.slot.len > 0 && w'.slot.firstRx == w.slot.firstRx
    && w'.slot.forwarded == w.slot.forwarded && w'.slot.reported == w.slot.reported
    && w'.slot.attempted == w.slot.attempted && w'.slot.succeeded == w.slot.succeeded
    && w'.slot.parityCounted == w.slot.parityCounted
    && (w.slot.reported ==> w'.slot.present == w.slot.present)
    && w'.stats == w.stats.(dataFragments := w'.stats.dataFragments, parityFragments := w'.stats.parityFragments)
    && (Timed(w.slot) ==> Timed(w'.slot))
  }

  lemma StoreKeeps(w: World, f: Fragment, r: nat)
    requires SlotInv(w.slot) && w.slot.inUse && w.slot.len > 0 && Acceptable(f) && r <= MAX_PARITY && Storable(f, r)
    ensures StoredOnly(w, Store(w, f, r))
  {
    CountExtremes(w.slot.forwarded);
  }

  lemma StoreIsAccounted(w: World, f: Fragment, r: nat)
    requires SlotInv(w.slot) && w.slot.inUse && w.slot.len > 0 && Acceptable(f) && r <= MAX_PARITY && Storable(f, r)
    ensures Accounted(Store(w, f, r).slot)
  {
    PaidDepends(w.slot, Store(w, f, r).slot, K);
  }

  /** Once reported, a generation causes nothing more. */
  lemma ReportedIsQuiet(w: World, e: Env)
    requires EnvOk(e) && Accounted(w.slot) && w.slot.inUse && w.slot.len > 0 && w.slot.reported
    requires w.slot.forwarded == w.slot.present && Count(w.slot.forwarded) == K
    ensures Process(w, e) == w.(slot := w.slot.(completed := true))
  {
    CountExtremes(w.slot.forwarded);
    NothingToForward(w, K, e);
  }

  lemma ReportedPassFollows(w: World, e: Env)
    requires EnvOk(e) && Accounted(w.slot) && w.slot.inUse && w.slot.len > 0 && w.slot.reported
    requires w.slot.forwarded == w.slot.present && Count(w.slot.forwarded) == K
    requires !w.slot.succeeded == !w.slot.attempted == !w.slot.parityCounted
    ensures var w' := Process(w, e);
      && SlotInv(w'.slot) && w'.stats == w.stats && w'.slot.reported && (Timed(w.slot) ==> Timed(w'.slot))
  {
    ReportedIsQuiet(w, e);
    PaidDepends(w.slot, w.slot.(completed := true), K);
  }

  lemma {:induction false} NothingToForward(w: World, n: nat, e: Env)
    requires WellSized(w.slot) && n <= K && forall i :: 0 <= i < K ==> w.slot.forwarded[i]
    ensures ForwardOriginals(w, n, e) == w
  {
    if n == 0 {
    } else {
      NothingToForward(w, n - 1, e);
    }
  }

  lemma OneReport(x: Report)
    ensures Decoded([x]) == (if x.decoded then 1 else 0) && ReportedBytes([x]) == x.bytes
  {
    assert [x][..0] == [];
  }

  lemma ReportedIsPaid(s: Slot)
    requires SlotInv(s)
    ensures s.reported ==> Paid(s, K) == RowsPayload(s, K)
  {
    if s.reported {
      CountExtremes(s.forwarded);
      PaidInFull(s, K);
    }
  }

  lemma MovedMeansFollows(st: Stats, st': Stats, e: Env, newly: bool, decoded: bool, bytes: nat)
    requires Moved(st, st', e, newly, decoded, bytes) && (decoded ==> newly)
    ensures Follows(st, st', e, if newly then [Report(bytes, decoded)] else [])
  {
    OneReport(Report(bytes, decoded));
  }

  lemma FreshPassFollows(w: World, e: Env)
    requires EnvOk(e) && Accounted(w.slot) && w.slot.inUse && w.slot.len > 0
    requires !w.slot.reported && !w.slot.attempted && !w.slot.succeeded && !w.slot.parityCounted &&
      Count(w.slot.forwarded) < K
    ensures var w' := Process(w, e); var reports := NewReport(w.slot, w'.slot);
      && SlotInv(w'.slot) && Follows(w.stats, w'.stats, e, reports)
      && (e.now > 0 && Timed(w.slot) ==> Timed(w'.slot))
      && (e.now > 0 && w.slot.firstRx > 0 && Timed(w.slot) ==> w'.stats.completed == w.stats.completed + |reports|)
  {
    ProcessIsAccounted(w, e);
    var w' := Process(w, e);
    ReportedIsPaid(w'.slot);
    MovedMeansFollows(w.stats, w'.stats, e, w'.slot.reported, w'.slot.attempted, Paid(w'.slot, K));
  }

  lemma StoredPassFollows(w: World, w1: World, e: Env)
    requires SlotInv(w.slot) && EnvOk(e) && Accounted(w1.slot) && StoredOnly(w, w1)
    ensures var w' := Process(w1, e); var reports := NewReport(w.slot, w'.slot);
      && SlotInv(w'.slot) && Follows(w.stats, w'.stats, e, reports)
      && (e.now > 0 && Timed(w.slot) ==> Timed(w'.slot))
      && (e.now > 0 && w.slot.firstRx > 0 && Timed(w.slot) ==> w'.stats.completed == w.stats.completed + |reports|)
  {
    if w.slot.reported {
      ReportedPassFollows(w1, e);
    } else {
      FreshPassFollows(w1, e);
    }
  }

  /** Storing and processing one fragment on a slot at rest. */
  lemma PassFollows(w: World, f: Fragment, e: Env)
    requires SlotInv(w.slot) && w.slot.inUse && w.slot.len > 0 && Acceptable(f) && EnvOk(e) && Storable(f, e.r)
    ensures var w' := Process(Store(w, f, e.r), e); var reports := NewReport(w.slot, w'.slot);
      && SlotInv(w'.slot) && Follows(w.stats, w'.stats, e, reports)
      && (e.now > 0 && Timed(w.slot) ==> Timed(w'.slot))
      && (e.now > 0 && w.slot.firstRx > 0 && Timed(w.slot) ==> w'.stats.completed == w.stats.completed + |reports|)
  {
    StoreKeeps(w, f, e.r);
    StoreIsAccounted(w, f, e.r);
    StoredPassFollows(w, Store(w, f, e.r), e);
  }

  function ReportsOfFragment(w: World, f: Fragment, e: Env): seq<Report>
    requires WellSized(w.slot) && Acceptable(f) && EnvOk(e)
  {
    NewReport(Lookup(w, f, e).slot, OnFragment(w, f, e).slot)
  }

  lemma HandlerFollows(w: World, f: Fragment, e: Env)
    requires SlotInv(w.slot) && Acceptable(f) && EnvOk(e)
    ensures var w', reports := OnFragment(w, f, e), ReportsOfFragment(w, f, e);
      && SlotInv(w'.slot) && Follows(w.stats, w'.stats, e, reports)
      && (e.now > 0 && Timed(w.slot) ==> Timed(w'.slot) && w'.stats.completed == w.stats.completed + |reports|)
  {
    LookupKeepsSlot(w, f, e);
    LookupKeepsCounters(w, f, e);
    if Storable(f, e.r) {
      PassFollows(Lookup(w, f, e), f, e);
    }
  }

  lemma StoreBalances(w: World, f: Fragment, r: nat, c: Counter)
    requires WellSized(w.slot) && Acceptable(f) && r <= MAX_PARITY && Storable(f, r)
    ensures Balances(w, Store(w, f, r), c)
  {
  }

  lemma HandlerBalances(w: World, f: Fragment, e: Env, c: Counter)
    requires WellSized(w.slot) && Acceptable(f) && EnvOk(e)
    ensures Balances(w, OnFragment(w, f, e), c)
  {
    var w1 := Lookup(w, f, e);
    LookupKeepsCounters(w, f, e);
    assert Balances(w, w1, c);
    if Storable(f, e.r) {
      var w2 := Store(w1, f, e.r);
      StoreBalances(w1, f, e.r, c);
      ProcessBalances(w2, e, c);
      BalanceChain(w, w1, w2, c);
      BalanceChain(w, w2, Process(w2, e), c);
    }
  }

  // ----- every stream

  /** A datagram as it comes from the socket, and the surroundings of its handling. */
  datatype Input = Input(buf: seq<Byte>, now: nat, accepts: nat -> bool)

  function With(e: Env, x: Input): Env {
    e.(now := x.now, accepts := x.accepts)
  }

  function Handle(inputs: seq<Input>, e: Env): (rx: Receiver)
    requires EnvOk(e)
    ensures ValidReceiver(rx)
  {
    if |inputs| == 0 then EmptyReceiver()
    else OnDatagram(Handle(inputs[..|inputs| - 1], e), inputs[|inputs| - 1].buf, With(e, inputs[|inputs| - 1]))
  }

  function ReportsOfDatagram(rx: Receiver, buf: seq<Byte>, e: Env): seq<Report>
    requires ValidReceiver(rx) && EnvOk(e)
  {
    match Parse(buf)
    case None => []
    case Some(f) =>
      if !Acceptable(f) then [] else ReportsOfFragment(World(rx.table[f.genId % MAX_GENS], rx.stats, []), f, e)
  }

  /** The generations completed along a stream, in order. */
  function Reports(inputs: seq<Input>, e: Env): seq<Report>
    requires EnvOk(e)
  {
    if |inputs| == 0 then []
    else
      var before, x := inputs[..|inputs| - 1], inputs[|inputs| - 1];
      Reports(before, e) + ReportsOfDatagram(Handle(before, e), x.buf, With(e, x))
  }

  ghost predicate AtRest(rx: Receiver, timed: bool)
    requires ValidReceiver(rx)
  {
    forall k :: 0 <= k < MAX_GENS ==> SlotInv(rx.table[k]) && (timed ==> Timed(rx.table[k]))
  }

  ghost predicate CountersFollow(st: Stats, e: Env, reports: seq<Report>, timed: bool) {
    Follows(NoStats(), st, e, reports) && (timed ==> st.completed == |reports|)
  }

  lemma ReportsAdd(a: seq<Report>, b: seq<Report>)
    requires |b| <= 1
    ensures Decoded(a + b) == Decoded(a) + Decoded(b) && ReportedBytes(a + b) == ReportedBytes(a) + ReportedBytes(b)
  {
    if |b| == 0 {
      assert a + b == a;
    } else {
      OneReport(b[0]);
      assert (a + b)[..|a|] == a;
    }
  }

  lemma Distribute(r: nat, a: nat, b: nat)
    ensures r * (a + b) == r * a + r * b
  {
  }

  lemma CountersAdd(st: Stats, st': Stats, e: Env, a: seq<Report>, b: seq<Report>)
    requires Follows(NoStats(), st, e, a) && Follows(st, st', e, b) && |b| <= 1
    ensures Follows(NoStats(), st', e, a + b)
  {
    ReportsAdd(a, b);
    Distribute(e.r, Decoded(a), Decoded(b));
  }

  lemma DatagramSendsAreCounted(rx: Receiver, buf: seq<Byte>, e: Env)
    requires ValidReceiver(rx) && EnvOk(e) && SendsAreCounted(rx.stats.sent, rx.log)
    ensures SendsAreCounted(OnDatagram(rx, buf, e).stats.sent, OnDatagram(rx, buf, e).log)
  {
    var parsed := Parse(buf);
    if parsed.Some? && Acceptable(parsed.value) {
      var f := parsed.value;
      var w := World(rx.table[f.genId % MAX_GENS], rx.stats, []);
      forall c
        ensures Booked(OnDatagram(rx, buf, e).stats.sent, c) == Tally(OnDatagram(rx, buf, e).log, c)
      {
        HandlerBalances(w, f, e, c);
        TallyJoin(rx.log, OnFragment(w, f, e).log, c);
      }
    }
  }

  lemma DatagramFollows(rx: Receiver, buf: seq<Byte>, e: Env, timed: bool, reports: seq<Report>)
    requires ValidReceiver(rx) && EnvOk(e) && AtRest(rx, timed) && CountersFollow(rx.stats, e, reports, timed)
    requires timed ==> e.now > 0
    ensures AtRest(OnDatagram(rx, buf, e), timed)
    ensures CountersFollow(OnDatagram(rx, buf, e).stats, e, reports + ReportsOfDatagram(rx, buf, e), timed)
  {
    var parsed, more := Parse(buf), ReportsOfDatagram(rx, buf, e);
    if parsed.Some? && Acceptable(parsed.value) {
      var f := parsed.value;
      var w := World(rx.table[f.genId % MAX_GENS], rx.stats, []);
      HandlerFollows(w, f, e);
      CountersAdd(rx.stats, OnFragment(w, f, e).stats, e, reports, more);
    } else {
      assert reports + more == reports;
    }
  }

  ghost predicate ClockIsPositive(inputs: seq<Input>) {
    forall k :: 0 <= k < |inputs| ==> inputs[k].now > 0
  }

  ghost predicate InOrder(rx: Receiver, e: Env, reports: seq<Report>, timed: bool)
    requires ValidReceiver(rx)
  {
    AtRest(rx, timed) && SendsAreCounted(rx.stats.sent, rx.log) && CountersFollow(rx.stats, e, reports, timed)
  }

  lemma InputFollows(rx: Receiver, x: Input, e: Env, timed: bool, reports: seq<Report>)
    requires ValidReceiver(rx) && EnvOk(e) && InOrder(rx, e, reports, timed) && (timed ==> x.now > 0)
    ensures InOrder(OnDatagram(rx, x.buf, With(e, x)), e, reports + ReportsOfDatagram(rx, x.buf, With(e, x)), timed)
  {
    DatagramSendsAreCounted(rx, x.buf, With(e, x));
    DatagramFollows(rx, x.buf, With(e, x), timed, reports);
  }

  lemma StartIsInOrder(e: Env, timed: bool)
    ensures InOrder(EmptyReceiver(), e, [], timed)
  {
    EmptySlotInv(BlankSlot());
  }

  lemma {:induction false} StreamFollows(inputs: seq<Input>, e: Env, timed: bool)
    requires EnvOk(e) && (timed ==> ClockIsPositive(inputs))
    ensures InOrder(Handle(inputs, e), e, Reports(inputs, e), timed)
    decreases |inputs|
  {
    if |inputs| == 0 {
      StartIsInOrder(e, timed);
    } else {
      var before, x := inputs[..|inputs| - 1], inputs[|inputs| - 1];
      StreamFollows(before, e, timed);
      InputFollows(Handle(before, e), x, e, timed, Reports(before, e));
    }
  }

  /** Statistics are conserved on every stream of bytes: each completed generation is counted once, as lossless exactly
      if the decoder was never run for it; the failure counter never moves; the decoder runs once per repaired
      generation and consumes r parity fragments; payload totals are those of the completed generations. */
  lemma StatisticsAreConserved(inputs: seq<Input>, e: Env)
    requires EnvOk(e)
    ensures var st, reports := Handle(inputs, e).stats, Reports(inputs, e);
      && st.noLoss + st.repaired + st.decodeFailed == |reports|
      && st.repaired == Decoded(reports) == st.decodeCalls && st.decodeFailed == 0
      && st.parityConsumed == e.r * st.repaired
      && st.usefulBytes == ReportedBytes(reports)
      && (ClockIsPositive(inputs) ==> st.completed == |reports|)
    ensures SendsAreCounted(Handle(inputs, e).stats.sent, Handle(inputs, e).log)
  {
    StreamFollows(inputs, e, ClockIsPositive(inputs));
  }

  /** Originals and successful repaired sends make up everything forwarded. */
  lemma OriginalsAndRepairsAreAll(inputs: seq<Input>, e: Env)
    requires EnvOk(e)
    ensures var rx := Handle(inputs, e); rx.stats.sent.forwarded == rx.stats.sent.original + RepairedSends(rx.log)
  {
    StatisticsAreConserved(inputs, e);
    var rx := Handle(inputs, e);
    SendsSplit(rx.log);
    assert Booked(rx.stats.sent, Sends) == Tally(rx.log, Sends) &&
      Booked(rx.stats.sent, Originals) == Tally(rx.log, Originals);
  }
}
