/** The Reed-Solomon receiver as it runs: 256 generation records updated in place, byte buffers decoded column by
    column, and a log of what the raw socket was given, proved against the slot functions. */
module RsReceiver {
  import opened Base
  import opened Deliveries
  import opened RsCodec
  import opened Wire
  import opened RsSlot
  import opened RsTable

  // ----- buffers

  function RowOf(a: array2<Byte>, i: nat, n: nat): (row: Packet)
    requires i < a.Length0 && n <= a.Length1
    reads a
    ensures |row| == n && forall j :: 0 <= j < n ==> row[j] == a[i, j]
  {
    seq(n, j requires 0 <= j < n && i < a.Length0 && n <= a.Length1 reads a => a[i, j])
  }

  function RowsOf(a: array2<Byte>): (rows: seq<Packet>)
    reads a
    ensures |rows| == a.Length0 && forall i :: 0 <= i < a.Length0 ==> rows[i] == RowOf(a, i, a.Length1)
  {
    seq(a.Length0, i requires 0 <= i < a.Length0 reads a => RowOf(a, i, a.Length1))
  }

  lemma RowIsPrefix(a: array2<Byte>, i: nat, n: nat)
    requires i < a.Length0 && n <= a.Length1
    ensures RowOf(a, i, n) == RowsOf(a)[i][..n]
  {
  }

  method CountClear(a: array<bool>) returns (n: nat)
    ensures n == a.Length - Count(a[..])
  {
    n := 0;
    for i := 0 to a.Length
      invariant n == i - Count(a[..i])
    {
      assert a[..i + 1][..i] == a[..i];
      if !a[i] {
        n := n + 1;
      }
    }
    assert a[..a.Length] == a[..];
  }

  method AllSet(a: array<bool>, n: nat) returns (all: bool)
    requires n <= a.Length
    ensures all <==> forall i :: 0 <= i < n ==> a[i]
  {
    all := true;
    var i := 0;
    while i < n && all
      invariant 0 <= i <= n
      invariant all <==> forall k :: 0 <= k < i ==> a[k]
    {
      all := a[i];
      i := i + 1;
    }
  }

  // ----- one generation record

  class GenState {
    var inUse: bool
    var genId: nat
    var len: nat
    const data: array2<Byte>
    const present: array<bool>
    const forwarded: array<bool>
    const parity: array2<Byte>
    const parityPresent: array<bool>
    var completed: bool
    var reported: bool
    var attempted: bool
    var succeeded: bool
    var parityCounted: bool
    var firstRx: nat
    var lastFwd: nat
    var usefulBytes: nat

    ghost predicate Shape() {
      && data.Length0 == K && data.Length1 == MAX_PKT_LEN
      && parity.Length0 == MAX_PARITY && parity.Length1 == MAX_PKT_LEN
      && present.Length == forwarded.Length == K && parityPresent.Length == MAX_PARITY
      && data != parity && present != forwarded && present != parityPresent && forwarded != parityPresent
    }

    ghost function Footprint(): set<object> {
      {this, data, present, forwarded, parity, parityPresent}
    }

    ghost predicate Ok()
      reads this
    {
      Shape() && len <= MAX_PKT_LEN
    }

    ghost function Value(): (s: Slot)
      requires Shape()
      reads Footprint()
      ensures len <= MAX_PKT_LEN ==> WellSized(s)
    {
      Slot(inUse, genId, len, RowsOf(data), present[..], forwarded[..], RowsOf(parity), parityPresent[..],
           completed, reported, attempted, succeeded, parityCounted, firstRx, lastFwd, usefulBytes)
    }

    constructor ()
      ensures Shape() && Value() == BlankSlot() && fresh(Footprint())
    {
      data := new Byte[K, MAX_PKT_LEN]((i, j) => 0);
      parity := new Byte[MAX_PARITY, MAX_PKT_LEN]((i, j) => 0);
      present := new bool[K](i => false);
      forwarded := new bool[K](i => false);
      parityPresent := new bool[MAX_PARITY](i => false);
      inUse, genId, len := false, 0, 0;
      completed, reported, attempted, succeeded, parityCounted := false, false, false, false, false;
      firstRx, lastFwd, usefulBytes := 0, 0, 0;
      new;
      assert present[..] == Repeat(false, K) && forwarded[..] == Repeat(false, K);
      assert parityPresent[..] == Repeat(false, MAX_PARITY);
      BlankRows(data);
      BlankRows(parity);
    }

    method ClearFlags()
      requires Shape()
      modifies present, forwarded, parityPresent
      ensures present[..] == forwarded[..] == Repeat(false, K) && parityPresent[..] == Repeat(false, MAX_PARITY)
    {
      forall i | 0 <= i < K { present[i] := false; }
      forall i | 0 <= i < K { forwarded[i] := false; }
      forall p | 0 <= p < MAX_PARITY { parityPresent[p] := false; }
    }

    method ClearRows()
      requires Shape()
      modifies data, parity
      ensures RowsOf(data) == Repeat(Repeat<Byte>(0, MAX_PKT_LEN), K)
      ensures RowsOf(parity) == Repeat(Repeat<Byte>(0, MAX_PKT_LEN), MAX_PARITY)
    {
      forall i, j | 0 <= i < K && 0 <= j < MAX_PKT_LEN { data[i, j] := 0; }
      forall p, j | 0 <= p < MAX_PARITY && 0 <= j < MAX_PKT_LEN { parity[p, j] := 0; }
      BlankRows(data);
      BlankRows(parity);
    }

    /** memset of the whole record. */
    method Clear()
      requires Shape()
      modifies Footprint()
      ensures Value() == BlankSlot()
    {
      inUse, genId, len := false, 0, 0;
      completed, reported, attempted, succeeded, parityCounted := false, false, false, false, false;
      firstRx, lastFwd, usefulBytes := 0, 0, 0;
      ClearFlags();
      ClearRows();
    }

    /** An empty record for generation id. */
    method Restart(id: nat)
      requires Shape()
      modifies Footprint()
      ensures Value() == FreshSlot(id)
    {
      Clear();
      inUse := true;
      genId := id;
    }
  }

  lemma BlankRows(a: array2<Byte>)
    requires forall i, j :: 0 <= i < a.Length0 && 0 <= j < a.Length1 ==> a[i, j] == 0
    ensures RowsOf(a) == Repeat(Repeat<Byte>(0, a.Length1), a.Length0)
  {
    forall i | 0 <= i < a.Length0
      ensures RowsOf(a)[i] == Repeat<Byte>(0, a.Length1)
    {
    }
  }

  // ----- decoding

  lemma MissingStep(present: seq<bool>, i: nat)
    requires i < |present|
    ensures Missing(present[..i + 1]) == Missing(present[..i]) + if present[i] then [] else [i]
  {
    assert present[..i + 1][..i] == present[..i];
  }

  /** The data part of a column, and the list of its missing positions. */
  method FillData(gs: GenState, j: nat) returns (codeword: seq<Byte>, eras: seq<nat>)
    requires gs.Ok() && j < MAX_PKT_LEN
    ensures |codeword| == K
    ensures forall i :: 0 <= i < K ==> codeword[i] == if gs.present[i] then gs.data[i, j] else 0
    ensures eras == Missing(gs.present[..])
  {
    ghost var present := gs.present[..];
    codeword, eras := [], [];
    for i := 0 to K
      invariant |codeword| == i
      invariant forall k :: 0 <= k < i ==> codeword[k] == if gs.present[k] then gs.data[k, j] else 0
      invariant present == gs.present[..] && eras == Missing(present[..i])
    {
      MissingStep(present, i);
      if gs.present[i] {
        codeword := codeword + [gs.data[i, j]];
      } else {
        codeword := codeword + [0];
        eras := eras + [i];
      }
    }
    assert present[..K] == present;
  }

  lemma ColumnByBytes(s: Slot, r: nat, j: nat, codeword: seq<Byte>)
    requires WellSized(s) && r <= MAX_PARITY && j < MAX_PKT_LEN && |codeword| == K + r
    requires forall i :: 0 <= i < K ==> codeword[i] == if s.present[i] then s.data[i][j] else 0
    requires forall p :: 0 <= p < r ==> codeword[K + p] == s.parity[p][j]
    ensures codeword == ColumnWord(s, r, j)
  {
    forall i | 0 <= i < K + r
      ensures codeword[i] == ColumnWord(s, r, j)[i]
    {
      assert i >= K ==> codeword[i] == codeword[K + (i - K)];
    }
  }

  /** The column as the decoder wants it, and the list of its missing positions. */
  method FillColumn(gs: GenState, j: nat, r: nat) returns (codeword: seq<Byte>, eras: seq<nat>)
    requires gs.Ok() && j < MAX_PKT_LEN && r <= MAX_PARITY
    ensures codeword == ColumnWord(gs.Value(), r, j)
    ensures eras == Missing(gs.present[..]) && forall m, n :: 0 <= m < n < |eras| ==> eras[m] < eras[n]
  {
    codeword, eras := FillData(gs, j);
    MissingAscends(gs.present[..]);
    for p := 0 to r
      invariant |codeword| == K + p
      invariant forall i :: 0 <= i < K ==> codeword[i] == if gs.present[i] then gs.data[i, j] else 0
      invariant forall q :: 0 <= q < p ==> codeword[K + q] == gs.parity[q, j]
    {
      codeword := codeword + [gs.parity[p, j]];
    }
    ColumnByBytes(gs.Value(), r, j, codeword);
  }

  /** Corrected bytes are copied into the missing rows of column j. */
  method CopyBack(gs: GenState, j: nat, codeword: seq<Byte>, eras: seq<nat>)
    requires gs.Ok() && j < MAX_PKT_LEN && |codeword| >= K && eras == Missing(gs.present[..])
    modifies gs.data
    ensures forall i, k :: 0 <= i < K && 0 <= k < MAX_PKT_LEN ==>
              gs.data[i, k] == if k == j && !gs.present[i] then codeword[i] else old(gs.data[i, k])
  {
    for n := 0 to |eras|
      invariant forall i, k :: 0 <= i < K && 0 <= k < MAX_PKT_LEN ==>
                  gs.data[i, k] == if k == j && i in eras[..n] then codeword[i] else old(gs.data[i, k])
    {
      gs.data[eras[n], j] := codeword[eras[n]];
    }
    forall i | 0 <= i < K
      ensures i in eras <==> !gs.present[i]
    {
      MissingIsAbsent(gs.present[..], i);
    }
    assert eras[..|eras|] == eras;
  }

  /** Column j is decoded when the columns before it have been. */
  lemma ColumnDone(s: Slot, s': Slot, c: Codec, r: nat, j: nat, rows: seq<Packet>)
    requires WellSized(s) && WellSized(s') && r <= MAX_PARITY && Shaped(c, r) && j < MAX_PKT_LEN
    requires s'.data == DecodedRows(s, c, r, j) && s'.present == s.present && s'.parity == s.parity
    requires |rows| == K && forall i :: 0 <= i < K ==> |rows[i]| == MAX_PKT_LEN
    requires forall i, k :: 0 <= i < K && 0 <= k < MAX_PKT_LEN ==>
               rows[i][k] == if k == j && !s.present[i] then DecodedByte(s', c, r, i, j) else s'.data[i][k]
    ensures rows == DecodedRows(s, c, r, j + 1)
  {
    assert ColumnWord(s', r, j) == ColumnWord(s, r, j);
    forall i | 0 <= i < K
      ensures rows[i] == DecodedRows(s, c, r, j + 1)[i]
    {
    }
  }

  lemma NothingDecoded(s: Slot, c: Codec, r: nat)
    requires WellSized(s) && r <= MAX_PARITY && Shaped(c, r)
    ensures DecodedRows(s, c, r, 0) == s.data
  {
    forall i | 0 <= i < K
      ensures DecodedRows(s, c, r, 0)[i] == s.data[i]
    {
    }
  }

  method DecodeColumn(gs: GenState, j: nat, e: Env, ghost s: Slot)
    requires EnvOk(e) && gs.Ok() && j < MAX_PKT_LEN && WellSized(s)
    requires gs.Value() == s.(data := DecodedRows(s, e.codec, e.r, j))
    modifies gs.data
    ensures gs.Value() == s.(data := DecodedRows(s, e.codec, e.r, j + 1))
  {
    ghost var s' := gs.Value();
    var codeword, eras := FillColumn(gs, j, e.r);
    codeword := e.codec.decode(codeword, eras);
    CopyBack(gs, j, codeword, eras);
    ColumnDone(s, s', e.codec, e.r, j, RowsOf(gs.data));
  }

  /** All columns of the generation, one after the other. */
  method DecodeAllColumns(gs: GenState, e: Env)
    requires EnvOk(e) && gs.Ok()
    modifies gs.data
    ensures gs.Value() == old(gs.Value()).(data := DecodedRows(old(gs.Value()), e.codec, e.r, gs.len))
  {
    ghost var s := gs.Value();
    NothingDecoded(s, e.codec, e.r);
    for j := 0 to gs.len
      invariant gs.Value() == s.(data := DecodedRows(s, e.codec, e.r, j))
    {
      DecodeColumn(gs, j, e, s);
    }
  }

  // ----- the receiver

  class EdgeReceiver {
    const gens: seq<GenState>
    var stats: Stats
    var log: seq<Delivery>

    ghost predicate Shape() {
      && |gens| == MAX_GENS
      && (forall k :: 0 <= k < MAX_GENS ==> gens[k].Shape())
      && (forall k, l :: 0 <= k < l < MAX_GENS ==> gens[k].Footprint() !! gens[l].Footprint())
    }

    ghost predicate Valid()
      reads this, set k | 0 <= k < |gens| :: gens[k]
    {
      Shape() && forall k :: 0 <= k < MAX_GENS ==> gens[k].len <= MAX_PKT_LEN
    }

    ghost function AllState(): set<object> {
      set k, o | 0 <= k < |gens| && o in gens[k].Footprint() :: o
    }

    ghost function Value(): (rx: Receiver)
      requires Shape()
      reads this, AllState()
    {
      Receiver(seq(MAX_GENS, k requires 0 <= k < MAX_GENS reads AllState() =>
        (assert gens[k].Footprint() <= AllState(); gens[k].Value())), stats, log)
    }

    /** What a handler works on. */
    ghost function WorldOf(gs: GenState): World
      requires gs.Shape()
      reads this, gs.Footprint()
    {
      World(gs.Value(), stats, log)
    }

    method ForwardIpPacket(gs: GenState, i: nat, original: bool, e: Env)
      requires gs.Ok() && i < K
      modifies this`stats, this`log
      ensures WorldOf(gs) == SendRow(old(WorldOf(gs)), i, original, e)
    {
      if gs.len >= MIN_IP {
        var pkt := RowOf(gs.data, i, gs.len);
        RowIsPrefix(gs.data, i, gs.len);
        var ok := e.accepts(i);
        log := log + [Delivery(gs.genId, i, pkt, original, ok)];
        if ok {
          stats := stats.(sent := stats.sent.(forwarded := stats.sent.forwarded + 1,
                                              bytesForwarded := stats.sent.bytesForwarded + gs.len));
          if original {
            stats := stats.(sent := stats.sent.(original := stats.sent.original + 1,
                                                bytesOriginal := stats.sent.bytesOriginal + gs.len));
          }
        }
      }
    }

    /** A row is sent, flagged and counted. */
    method HandOn(gs: GenState, i: nat, original: bool, e: Env)
      requires gs.Ok() && i < K
      modifies this`stats, this`log, gs`lastFwd, gs`usefulBytes, gs.forwarded
      ensures WorldOf(gs) == ForwardRow(old(WorldOf(gs)), i, original, e)
    {
      ForwardIpPacket(gs, i, original, e);
      label Sent:
      gs.forwarded[i] := true;
      assert gs.forwarded[..] == old@Sent(gs.forwarded[..])[i := true];
      RowIsPrefix(gs.data, i, gs.len);
      gs.usefulBytes := gs.usefulBytes + PayloadBytes(RowOf(gs.data, i, gs.len));
      gs.lastFwd := e.now;
    }

    /** Everything from the decision to decode to the end of the column loop. */
    method DecodeStored(gs: GenState, e: Env)
      requires EnvOk(e) && gs.Ok()
      modifies this`stats, gs`attempted, gs`parityCounted, gs.data
      ensures WorldOf(gs) == DecodeColumns(old(WorldOf(gs)), e)
    {
      gs.attempted := true;
      if !gs.parityCounted {
        stats := stats.(parityConsumed := stats.parityConsumed + e.r);
        gs.parityCounted := true;
      }
      label Counted:
      ghost var s := gs.Value();
      DecodeAllColumns(gs, e);
      SameColumnsAnyFlags(old(gs.Value()), s, e);
      stats := stats.(decodeCalls := stats.decodeCalls + 1);
    }

    /** Rebuilt rows are marked present and handed on. */
    method HandOnRepaired(gs: GenState, e: Env)
      requires EnvOk(e) && gs.Ok()
      modifies this`stats, this`log, gs`lastFwd, gs`usefulBytes, gs.forwarded, gs.present
      ensures WorldOf(gs) == ForwardRepaired(old(WorldOf(gs)), K, e)
    {
      ghost var w := WorldOf(gs);
      for i := 0 to K
        invariant gs.Ok() && WorldOf(gs) == ForwardRepaired(w, i, e)
      {
        if !gs.present[i] {
          ghost var before := gs.present[..];
          gs.present[i] := true;
          assert gs.present[..] == before[i := true];
          HandOn(gs, i, false, e);
        }
      }
    }

    /** The early returns in front of the decoder. */
    method GateIsOpen(gs: GenState, r: nat) returns (open: bool)
      requires gs.Ok() && r <= MAX_PARITY
      ensures open == GateOpen(gs.Value(), r)
    {
      open := false;
      if gs.inUse && gs.len > 0 && r > 0 {
        var unforwarded := CountClear(gs.forwarded);
        var missing := CountClear(gs.present);
        var allParity := AllSet(gs.parityPresent, r);
        open := unforwarded > 0 && missing > 0 && allParity;
      }
    }

    method NoteSuccess(gs: GenState)
      requires gs.Ok()
      modifies gs`succeeded
      ensures gs.Value() == old(gs.Value()).(succeeded := Count(gs.present[..]) == K || old(gs.succeeded))
    {
      var missingAfter := CountClear(gs.present);
      if missingAfter == 0 {
        gs.succeeded := true;
      }
    }

    method TryDecodeGeneration(gs: GenState, e: Env)
      requires EnvOk(e) && gs.Ok()
      modifies this`stats, this`log, gs`attempted, gs`parityCounted, gs`succeeded, gs`lastFwd, gs`usefulBytes,
               gs.data, gs.present, gs.forwarded
      ensures WorldOf(gs) == Decode(old(WorldOf(gs)), e)
    {
      ghost var w := WorldOf(gs);
      var open := GateIsOpen(gs, e.r);
      if open {
        DecodeStored(gs, e);
        HandOnRepaired(gs, e);
        ghost var w1 := WorldOf(gs);
        assert w1 == ForwardRepaired(DecodeColumns(w, e), K, e);
        NoteSuccess(gs);
        assert WorldOf(gs).slot == w1.slot.(succeeded := Count(w1.slot.present) == K || w1.slot.succeeded);
      }
    }

    method HandOnOriginals(gs: GenState, e: Env)
      requires EnvOk(e) && gs.Ok()
      modifies this`stats, this`log, gs`lastFwd, gs`usefulBytes, gs.forwarded
      ensures WorldOf(gs) == ForwardOriginals(old(WorldOf(gs)), K, e)
    {
      ghost var w := WorldOf(gs);
      for i := 0 to K
        invariant gs.Ok() && WorldOf(gs) == ForwardOriginals(w, i, e)
      {
        if gs.present[i] && !gs.forwarded[i] {
          HandOn(gs, i, true, e);
        }
      }
    }

    /** The outcome of a completed generation. */
    method CountOutcome(gs: GenState)
      requires gs.Ok()
      modifies this`stats
      ensures stats == Classify(gs.Value(), old(stats))
    {
      var missing := CountClear(gs.present);
      if missing == 0 {
        if !gs.attempted {
          stats := stats.(noLoss := stats.noLoss + 1);
        } else if gs.succeeded {
          stats := stats.(repaired := stats.repaired + 1);
        } else {
          stats := stats.(decodeFailed := stats.decodeFailed + 1);
        }
      } else {
        stats := stats.(decodeFailed := stats.decodeFailed + 1);
      }
    }

    /** Outcome and totals of a completed generation, booked once. */
    method BookTotals(gs: GenState)
      requires gs.Ok()
      modifies this`stats
      ensures var st := Classify(gs.Value(), old(stats));
        stats == st.(completed := if gs.firstRx != 0 && gs.lastFwd != 0 then st.completed + 1 else st.completed,
                     usefulBytes := st.usefulBytes + gs.usefulBytes)
    {
      CountOutcome(gs);
      if gs.firstRx != 0 && gs.lastFwd != 0 {
        stats := stats.(completed := stats.completed + 1);
      }
      stats := stats.(usefulBytes := stats.usefulBytes + gs.usefulBytes);
    }

    method FinishGeneration(gs: GenState)
      requires gs.Ok()
      modifies this`stats, gs`completed, gs`reported
      ensures WorldOf(gs) == Complete(old(WorldOf(gs)))
    {
      var allForwarded := AllSet(gs.forwarded, K);
      CountExtremes(gs.forwarded[..]);
      if allForwarded {
        if !gs.reported {
          BookTotals(gs);
          gs.reported := true;
        }
        gs.completed := true;
      }
    }

    method ProcessGeneration(gs: GenState, e: Env)
      requires EnvOk(e) && gs.Ok()
      modifies this`stats, this`log, gs`attempted, gs`parityCounted, gs`succeeded, gs`lastFwd, gs`usefulBytes,
               gs`completed, gs`reported, gs.data, gs.present, gs.forwarded
      ensures WorldOf(gs) == Process(old(WorldOf(gs)), e)
    {
      if gs.inUse && gs.len > 0 {
        HandOnOriginals(gs, e);
        TryDecodeGeneration(gs, e);
        FinishGeneration(gs);
      }
    }

    /** The record for a generation number; a record of another generation is wiped first. */
    method GetGenState(genId: nat) returns (gs: GenState)
      requires Valid()
      modifies this`stats, gens[genId % MAX_GENS].Footprint()
      ensures gs == gens[genId % MAX_GENS] && gs.Ok()
      ensures gs.Value() == Open(old(gs.Value()), genId) && log == old(log)
      ensures stats == if old(gs.inUse && gs.genId == genId) then old(stats)
                       else old(stats).(generations := old(stats).generations + 1)
    {
      gs := gens[genId % MAX_GENS];
      if !gs.inUse || gs.genId != genId {
        gs.Restart(genId);
        stats := stats.(generations := stats.generations + 1);
      }
    }

    /** First-arrival time and length. */
    method AdmitFragment(gs: GenState, f: Fragment, e: Env)
      requires gs.Ok() && Acceptable(f)
      modifies this`stats, gs.Footprint()
      ensures gs.Ok() && WorldOf(gs) == Admit(old(WorldOf(gs)), f, e)
    {
      if gs.firstRx == 0 {
        gs.firstRx := e.now;
      }
      if gs.len == 0 {
        gs.len := f.originalLen;
      } else if gs.len != f.originalLen {
        gs.Restart(f.genId);
        gs.firstRx := e.now;
        gs.len := f.originalLen;
        stats := stats.(generations := stats.generations + 1);
      }
    }

    /** A first copy of a data or parity row is stored. */
    method StoreFragment(gs: GenState, f: Fragment, r: nat)
      requires gs.Ok() && Acceptable(f) && r <= MAX_PARITY && Storable(f, r)
      modifies this`stats, gs.data, gs.present, gs.parity, gs.parityPresent
      ensures WorldOf(gs) == Store(old(WorldOf(gs)), f, r)
    {
      if f.kind == DATA {
        if !gs.present[f.index] {
          CopyInto(gs.data, f.index, f.payload, f.originalLen);
          ghost var before := gs.present[..];
          gs.present[f.index] := true;
          assert gs.present[..] == before[f.index := true];
          stats := stats.(dataFragments := stats.dataFragments + 1);
        }
      } else {
        var p := f.index - K;
        if !gs.parityPresent[p] {
          CopyInto(gs.parity, p, f.payload, f.originalLen);
          ghost var before := gs.parityPresent[..];
          gs.parityPresent[p] := true;
          assert gs.parityPresent[..] == before[p := true];
          stats := stats.(parityFragments := stats.parityFragments + 1);
        }
      }
    }

    constructor ()
      ensures Valid() && Value() == EmptyReceiver() && fresh(AllState())
    {
      var made: seq<GenState> := [];
      while |made| < MAX_GENS
        invariant |made| <= MAX_GENS
        invariant forall k :: 0 <= k < |made| ==>
                    made[k].Shape() && fresh(made[k].Footprint()) && made[k].Value() == BlankSlot()
        invariant forall k, l :: 0 <= k < l < |made| ==> made[k].Footprint() !! made[l].Footprint()
      {
        var gs := new GenState();
        made := made + [gs];
      }
      gens := made;
      stats := NoStats();
      log := [];
    }

    /** The records a datagram can touch. */
    ghost function Touched(buf: seq<Byte>): set<object>
      requires |gens| == MAX_GENS
    {
      match Parse(buf)
      case None => {}
      case Some(f) => gens[f.genId % MAX_GENS].Footprint()
    }

    /** An acceptable fragment, on the record of its generation. */
    method HandleAcceptable(f: Fragment, e: Env)
      requires Valid() && EnvOk(e) && Acceptable(f)
      modifies this`stats, this`log, gens[f.genId % MAX_GENS].Footprint()
      ensures gens[f.genId % MAX_GENS].Ok()
      ensures WorldOf(gens[f.genId % MAX_GENS]) == OnFragment(old(WorldOf(gens[f.genId % MAX_GENS])), f, e)
    {
      var gs := GetGenState(f.genId);
      AdmitFragment(gs, f, e);
      assert WorldOf(gs) == Lookup(old(WorldOf(gens[f.genId % MAX_GENS])), f, e);
      if Storable(f, e.r) {
        StoreFragment(gs, f, e.r);
        ProcessGeneration(gs, e);
      }
    }

    /** The same, seen on the whole table. */
    method StepTable(f: Fragment, e: Env)
      requires Valid() && EnvOk(e) && Acceptable(f)
      modifies this`stats, this`log, gens[f.genId % MAX_GENS].Footprint()
      ensures Valid()
      ensures var rx, k := old(Value()), f.genId % MAX_GENS;
        var w := OnFragment(World(rx.table[k], rx.stats, rx.log), f, e);
        Value() == Receiver(rx.table[k := w.slot], w.stats, w.log)
    {
      ghost var rx, k := Value(), f.genId % MAX_GENS;
      HandleAcceptable(f, e);
      assert forall l :: 0 <= l < MAX_GENS && l != k ==> gens[l].Value() == old(gens[l].Value());
      assert Value().table == rx.table[k := gens[k].Value()];
    }

    method HandleFragment(buf: seq<Byte>, e: Env)
      requires Valid() && EnvOk(e)
      modifies this`stats, this`log, Touched(buf)
      ensures Valid() && Value() == OnDatagram(old(Value()), buf, e)
    {
      var parsed := Parse(buf);
      if parsed.Some? && Acceptable(parsed.value) {
        ghost var rx := Value();
        StepTable(parsed.value, e);
        RecordStep(rx, Value(), parsed.value, e);
      }
    }
  }

  // ----- earlier sends do not matter

  function Onto(base: seq<Delivery>, w: World): World {
    w.(log := base + w.log)
  }

  lemma RowAppends(w: World, base: seq<Delivery>, i: nat, original: bool, e: Env)
    requires WellSized(w.slot) && i < K
    ensures ForwardRow(Onto(base, w), i, original, e) == Onto(base, ForwardRow(w, i, original, e))
  {
    assert forall d :: base + (w.log + [d]) == base + w.log + [d];
  }

  lemma {:induction false} OriginalsAppend(w: World, base: seq<Delivery>, n: nat, e: Env)
    requires WellSized(w.slot) && n <= K
    ensures ForwardOriginals(Onto(base, w), n, e) == Onto(base, ForwardOriginals(w, n, e))
  {
    if n == 0 {
    } else {
      OriginalsAppend(w, base, n - 1, e);
      RowAppends(ForwardOriginals(w, n - 1, e), base, n - 1, true, e);
    }
  }

  /** One row of the loop over rebuilt rows. */
  function RepairRow(w: World, i: nat, e: Env): World
    requires WellSized(w.slot) && i < K
  {
    if !w.slot.present[i] then ForwardRow(w.(slot := w.slot.(present := w.slot.present[i := true])), i, false, e) else w
  }

  lemma RepairRowAppends(w: World, v: World, base: seq<Delivery>, i: nat, e: Env)
    requires WellSized(w.slot) && i < K && v == Onto(base, w)
    ensures RepairRow(v, i, e) == Onto(base, RepairRow(w, i, e))
  {
    var w1 := w.(slot := w.slot.(present := w.slot.present[i := true]));
    RowAppends(w1, base, i, false, e);
    assert v.(slot := v.slot.(present := v.slot.present[i := true])) == Onto(base, w1);
  }

  lemma RepairedIsRow(w: World, n: nat, e: Env)
    requires WellSized(w.slot) && n < K
    ensures ForwardRepaired(w, n + 1, e) == RepairRow(ForwardRepaired(w, n, e), n, e)
  {
  }

  lemma OneMoreAppends(w: World, v: World, a: World, base: seq<Delivery>, n: nat, e: Env)
    requires WellSized(w.slot) && WellSized(v.slot) && n < K
    requires a == ForwardRepaired(w, n, e) && ForwardRepaired(v, n, e) == Onto(base, a)
    ensures ForwardRepaired(v, n + 1, e) == Onto(base, ForwardRepaired(w, n + 1, e))
  {
    RepairedIsRow(w, n, e);
    RepairedIsRow(v, n, e);
    RepairRowAppends(a, Onto(base, a), base, n, e);
  }

  lemma {:induction false} RepairedAppend(w: World, v: World, base: seq<Delivery>, n: nat, e: Env)
    requires WellSized(w.slot) && n <= K && v == Onto(base, w)
    ensures ForwardRepaired(v, n, e) == Onto(base, ForwardRepaired(w, n, e))
  {
    if n == 0 {
    } else {
      RepairedAppend(w, v, base, n - 1, e);
      OneMoreAppends(w, v, ForwardRepaired(w, n - 1, e), base, n - 1, e);
    }
  }

  lemma ColumnsAppend(w: World, base: seq<Delivery>, e: Env)
    requires WellSized(w.slot) && EnvOk(e)
    ensures DecodeColumns(Onto(base, w), e) == Onto(base, DecodeColumns(w, e))
  {
  }

  lemma DecodeAppends(w: World, base: seq<Delivery>, e: Env)
    requires WellSized(w.slot) && EnvOk(e)
    ensures Decode(Onto(base, w), e) == Onto(base, Decode(w, e))
  {
    if GateOpen(w.slot, e.r) {
      ColumnsAppend(w, base, e);
      RepairedAppend(DecodeColumns(w, e), DecodeColumns(Onto(base, w), e), base, K, e);
    }
  }

  lemma CompleteAppends(w: World, base: seq<Delivery>)
    requires WellSized(w.slot)
    ensures Complete(Onto(base, w)) == Onto(base, Complete(w))
  {
  }

  lemma ProcessAppends(w: World, base: seq<Delivery>, e: Env)
    requires WellSized(w.slot) && EnvOk(e)
    ensures Process(Onto(base, w), e) == Onto(base, Process(w, e))
  {
    if w.slot.inUse && w.slot.len > 0 {
      OriginalsAppend(w, base, K, e);
      var w1 := ForwardOriginals(w, K, e);
      DecodeAppends(w1, base, e);
      CompleteAppends(Decode(w1, e), base);
    }
  }

  lemma AdmitAppends(w: World, base: seq<Delivery>, f: Fragment, e: Env)
    requires WellSized(w.slot) && Acceptable(f)
    ensures Admit(Onto(base, w), f, e) == Onto(base, Admit(w, f, e))
  {
  }

  lemma LookupAppends(w: World, base: seq<Delivery>, f: Fragment, e: Env)
    requires WellSized(w.slot) && Acceptable(f)
    ensures Lookup(Onto(base, w), f, e) == Onto(base, Lookup(w, f, e))
  {
    var st := if w.slot.inUse && w.slot.genId == f.genId then w.stats
              else w.stats.(generations := w.stats.generations + 1);
    AdmitAppends(w.(slot := Open(w.slot, f.genId), stats := st), base, f, e);
  }

  lemma StoreAppends(w: World, base: seq<Delivery>, f: Fragment, r: nat)
    requires WellSized(w.slot) && Acceptable(f) && r <= MAX_PARITY && Storable(f, r)
    ensures Store(Onto(base, w), f, r) == Onto(base, Store(w, f, r))
  {
  }

  lemma HandlerAppends(w: World, base: seq<Delivery>, f: Fragment, e: Env)
    requires WellSized(w.slot) && EnvOk(e) && Acceptable(f)
    ensures OnFragment(Onto(base, w), f, e) == Onto(base, OnFragment(w, f, e))
  {
    LookupAppends(w, base, f, e);
    if Storable(f, e.r) {
      var w1 := Lookup(w, f, e);
      StoreAppends(w1, base, f, e.r);
      ProcessAppends(Store(w1, f, e.r), base, e);
    }
  }

  /** One record and the counters changed as the handler says: that is one datagram's step. */
  lemma RecordStep(rx: Receiver, rx': Receiver, f: Fragment, e: Env)
    requires ValidReceiver(rx) && EnvOk(e) && Acceptable(f)
    requires var k := f.genId % MAX_GENS; var w := OnFragment(World(rx.table[k], rx.stats, rx.log), f, e);
      rx' == Receiver(rx.table[k := w.slot], w.stats, w.log)
    ensures var k := f.genId % MAX_GENS; var w := OnFragment(World(rx.table[k], rx.stats, []), f, e);
      rx' == Receiver(rx.table[k := w.slot], w.stats, rx.log + w.log)
  {
    var w := World(rx.table[f.genId % MAX_GENS], rx.stats, []);
    assert rx.log + [] == rx.log;
    HandlerAppends(w, rx.log, f, e);
  }

  /** memcpy of a payload into row i of a buffer. */
  method CopyInto(a: array2<Byte>, i: nat, payload: Packet, n: nat)
    requires i < a.Length0 && n <= a.Length1 && n <= |payload|
    modifies a
    ensures RowsOf(a) == old(RowsOf(a))[i := Overwrite(old(RowsOf(a))[i], payload, n)]
  {
    ghost var before := RowsOf(a);
    for j := 0 to n
      invariant forall k, l :: 0 <= k < a.Length0 && 0 <= l < a.Length1 ==>
                  a[k, l] == if k == i && l < j then payload[l] else old(a[k, l])
    {
      a[i, j] := payload[j];
    }
    forall k | 0 <= k < a.Length0
      ensures RowsOf(a)[k] == if k == i then Overwrite(before[i], payload, n) else before[k]
    {
    }
  }

  /** The columns depend on the stored bytes and on which rows are missing, not on the bookkeeping. */
  lemma SameColumnsAnyFlags(s: Slot, s': Slot, e: Env)
    requires WellSized(s) && WellSized(s') && EnvOk(e)
    requires s' == s.(attempted := s'.attempted, parityCounted := s'.parityCounted)
    ensures DecodedRows(s', e.codec, e.r, s.len) == DecodedRows(s, e.codec, e.r, s.len)
  {
    forall j | 0 <= j < MAX_PKT_LEN
      ensures ColumnWord(s', e.r, j) == ColumnWord(s, e.r, j)
    {
    }
    forall i | 0 <= i < K
      ensures DecodedRows(s', e.codec, e.r, s.len)[i] == DecodedRows(s, e.codec, e.r, s.len)[i]
    {
    }
  }
}
