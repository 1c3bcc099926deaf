/** What a run of fragments does to one slot: which packets go out, how often, and with which bytes; for each pass of
    the receiver on its own and for the handler as a whole. */
module RsSlotLaws {
  import opened Bags
  import opened Base
  import opened Deliveries
  import opened RsCodec
  import opened Wire
  import opened RsSlot
  import opened RsGeneration

  // ----- deliveries

  ghost predicate Prefix<T>(a: seq<T>, b: seq<T>) {
    |a| <= |b| && b[..|a|] == a
  }

  lemma SuffixesJoin<T>(a: seq<T>, b: seq<T>, c: seq<T>)
    requires Prefix(a, b) && Prefix(b, c)
    ensures Prefix(a, c) && c[|a|..] == b[|a|..] + c[|b|..]
  {
    assert c[..|a|] == b[..|a|];
  }

  /** Exactly the flagged rows were delivered, each once, with the given bytes; a row too short for an IP header never
      is. */
  ghost predicate DeliveredOnce(outs: seq<Delivery>, id: nat, rows: seq<Packet>, flags: seq<bool>)
    requires |rows| == |flags| == K
  {
    && (forall k :: 0 <= k < |outs| ==>
          && outs[k].index < K && flags[outs[k].index] && |rows[outs[k].index]| >= MIN_IP
          && outs[k].genId == id && outs[k].pkt == rows[outs[k].index])
    && (forall k, l :: 0 <= k < l < |outs| ==> outs[k].index != outs[l].index)
    && (forall i :: 0 <= i < K && flags[i] && |rows[i]| >= MIN_IP ==> IsAmong(outs, i))
  }

  function Union(a: seq<bool>, b: seq<bool>): (c: seq<bool>)
    requires |a| == |b| == K
    ensures |c| == K && forall i :: 0 <= i < K ==> c[i] == (a[i] || b[i])
  {
    seq(K, i requires 0 <= i < K => a[i] || b[i])
  }

  lemma DeliveriesCompose(o1: seq<Delivery>, o2: seq<Delivery>, id: nat, rows: seq<Packet>,
                          f1: seq<bool>, f2: seq<bool>)
    requires |rows| == |f1| == |f2| == K
    requires DeliveredOnce(o1, id, rows, f1) && DeliveredOnce(o2, id, rows, f2)
    requires forall i :: 0 <= i < K ==> !(f1[i] && f2[i])
    ensures DeliveredOnce(o1 + o2, id, rows, Union(f1, f2))
  {
    var outs := o1 + o2;
    forall i | 0 <= i < K && Union(f1, f2)[i] && |rows[i]| >= MIN_IP
      ensures IsAmong(outs, i)
    {
      if f1[i] {
        var k :| 0 <= k < |o1| && o1[k].index == i;
        assert outs[k].index == i;
      } else {
        var k :| 0 <= k < |o2| && o2[k].index == i;
        assert outs[|o1| + k].index == i;
      }
    }
  }

  lemma DeliveriesAgree(outs: seq<Delivery>, id: nat, rows: seq<Packet>, rows': seq<Packet>, flags: seq<bool>)
    requires |rows| == |rows'| == |flags| == K && DeliveredOnce(outs, id, rows, flags)
    requires forall i :: 0 <= i < K && flags[i] ==> rows[i] == rows'[i]
    ensures DeliveredOnce(outs, id, rows', flags)
  {
  }

  function Rows(s: Slot): (rows: seq<Packet>)
    requires WellSized(s)
    ensures |rows| == K
  {
    seq(K, i requires 0 <= i < K => s.data[i][..s.len])
  }

  /** The flags that a forwarding loop has turned on after n rows. */
  function Turned(on: seq<bool>, n: nat): (f: seq<bool>)
    requires |on| == K && n <= K
    ensures |f| == K && forall i :: 0 <= i < K ==> f[i] == (i < n && on[i])
  {
    seq(K, i requires 0 <= i < K => i < n && on[i])
  }

  function Minus(a: seq<bool>, b: seq<bool>): (c: seq<bool>)
    requires |a| == |b| == K
    ensures |c| == K && forall i :: 0 <= i < K ==> c[i] == (a[i] && !b[i])
  {
    seq(K, i requires 0 <= i < K => a[i] && !b[i])
  }

  function Not(a: seq<bool>): (c: seq<bool>)
    requires |a| == K
    ensures |c| == K && forall i :: 0 <= i < K ==> c[i] == !a[i]
  {
    seq(K, i requires 0 <= i < K => !a[i])
  }

  /** From w to w': the flagged rows became present and forwarded, and were delivered once each. */
  ghost predicate Advanced(w: World, w': World, on: seq<bool>)
    requires WellSized(w.slot) && |on| == K
  {
    && w'.slot == w.slot.(present := Union(w.slot.present, on), forwarded := Union(w.slot.forwarded, on),
                          lastFwd := w'.slot.lastFwd, usefulBytes := w'.slot.usefulBytes)
    && Prefix(w.log, w'.log)
    && DeliveredOnce(w'.log[|w.log|..], w.slot.genId, Rows(w.slot), on)
  }

  lemma UnionFacts(a: seq<bool>, b: seq<bool>, c: seq<bool>)
    requires |a| == |b| == |c| == K
    ensures Union(Union(a, b), c) == Union(a, Union(b, c))
  {
  }

  lemma AdvanceChain(w: World, w1: World, w2: World, on1: seq<bool>, on2: seq<bool>)
    requires WellSized(w.slot) && |on1| == |on2| == K
    requires Advanced(w, w1, on1) && Advanced(w1, w2, on2)
    requires forall i :: 0 <= i < K ==> !(on1[i] && on2[i])
    ensures Advanced(w, w2, Union(on1, on2))
  {
    UnionFacts(w.slot.present, on1, on2);
    UnionFacts(w.slot.forwarded, on1, on2);
    assert Rows(w1.slot) == Rows(w.slot);
    SuffixesJoin(w.log, w1.log, w2.log);
    DeliveriesCompose(w1.log[|w.log|..], w2.log[|w1.log|..], w.slot.genId, Rows(w.slot), on1, on2);
  }

  lemma AdvanceNothing(w: World)
    requires WellSized(w.slot)
    ensures Advanced(w, w, Repeat(false, K))
  {
    assert Union(w.slot.present, Repeat(false, K)) == w.slot.present;
    assert Union(w.slot.forwarded, Repeat(false, K)) == w.slot.forwarded;
  }

  lemma OneRowDelivered(w: World, i: nat, original: bool, e: Env)
    requires WellSized(w.slot) && i < K
    ensures var w' := ForwardRow(w, i, original, e);
      && Prefix(w.log, w'.log)
      && DeliveredOnce(w'.log[|w.log|..], w.slot.genId, Rows(w.slot), Repeat(false, K)[i := true])
  {
    var outs := ForwardRow(w, i, original, e).log[|w.log|..];
    if w.slot.len >= MIN_IP {
      assert outs == [Delivery(w.slot.genId, i, w.slot.data[i][..w.slot.len], original, e.accepts(i))];
      assert outs[0].index == i;
    } else {
      assert outs == [];
    }
  }

  lemma AdvanceOneRow(w: World, i: nat, original: bool, e: Env)
    requires WellSized(w.slot) && i < K
    ensures var w1 := w.(slot := w.slot.(present := w.slot.present[i := true]));
      Advanced(w, ForwardRow(w1, i, original, e), Repeat(false, K)[i := true])
  {
    var w1, one := w.(slot := w.slot.(present := w.slot.present[i := true])), Repeat(false, K)[i := true];
    OneRowDelivered(w1, i, original, e);
    assert Rows(w1.slot) == Rows(w.slot);
    assert w.slot.present[i := true] == Union(w.slot.present, one);
    assert w.slot.forwarded[i := true] == Union(w.slot.forwarded, one);
  }

  lemma TurnedStep(on: seq<bool>, n: nat)
    requires |on| == K && 0 < n <= K
    ensures Turned(on, 0) == Repeat(false, K)
    ensures on[n - 1] ==> Turned(on, n) == Union(Turned(on, n - 1), Repeat(false, K)[n - 1 := true])
    ensures !on[n - 1] ==> Turned(on, n) == Turned(on, n - 1)
  {
  }

  lemma AdvanceTurned(w: World, w1: World, w2: World, on: seq<bool>, n: nat)
    requires WellSized(w.slot) && |on| == K && 0 < n <= K && on[n - 1]
    requires Advanced(w, w1, Turned(on, n - 1)) && Advanced(w1, w2, Repeat(false, K)[n - 1 := true])
    ensures Advanced(w, w2, Turned(on, n))
  {
    TurnedStep(on, n);
    AdvanceChain(w, w1, w2, Turned(on, n - 1), Repeat(false, K)[n - 1 := true]);
  }

  lemma StoredRowAdvances(w: World, i: nat, e: Env)
    requires WellSized(w.slot) && i < K && w.slot.present[i]
    ensures Advanced(w, ForwardRow(w, i, true, e), Repeat(false, K)[i := true])
  {
    AdvanceOneRow(w, i, true, e);
    assert w.slot.present[i := true] == w.slot.present;
  }

  /** One more stored row. */
  lemma OriginalsStep(w: World, w1: World, n: nat, e: Env)
    requires WellSized(w.slot) && 0 < n <= K && w1 == ForwardOriginals(w, n - 1, e)
    requires Advanced(w, w1, Turned(Minus(w.slot.present, w.slot.forwarded), n - 1))
    requires Minus(w.slot.present, w.slot.forwarded)[n - 1]
    ensures Advanced(w, ForwardOriginals(w, n, e), Turned(Minus(w.slot.present, w.slot.forwarded), n))
  {
    StoredRowAdvances(w1, n - 1, e);
    AdvanceTurned(w, w1, ForwardOriginals(w, n, e), Minus(w.slot.present, w.slot.forwarded), n);
  }

  lemma {:induction false} OriginalsLaw(w: World, n: nat, e: Env)
    requires WellSized(w.slot) && n <= K
    ensures Advanced(w, ForwardOriginals(w, n, e), Turned(Minus(w.slot.present, w.slot.forwarded), n))
  {
    var on := Minus(w.slot.present, w.slot.forwarded);
    if n == 0 {
      TurnedStep(on, 1);
      AdvanceNothing(w);
    } else {
      OriginalsLaw(w, n - 1, e);
      if on[n - 1] {
        OriginalsStep(w, ForwardOriginals(w, n - 1, e), n, e);
      } else {
        TurnedStep(on, n);
      }
    }
  }

  /** One more rebuilt row. */
  lemma RepairedStep(w: World, w1: World, n: nat, e: Env)
    requires WellSized(w.slot) && 0 < n <= K && w1 == ForwardRepaired(w, n - 1, e)
    requires Advanced(w, w1, Turned(Not(w.slot.present), n - 1)) && !w.slot.present[n - 1]
    ensures Advanced(w, ForwardRepaired(w, n, e), Turned(Not(w.slot.present), n))
  {
    AdvanceOneRow(w1, n - 1, false, e);
    AdvanceTurned(w, w1, ForwardRepaired(w, n, e), Not(w.slot.present), n);
  }

  lemma {:induction false} RepairedLaw(w: World, n: nat, e: Env)
    requires WellSized(w.slot) && n <= K
    ensures Advanced(w, ForwardRepaired(w, n, e), Turned(Not(w.slot.present), n))
  {
    if n == 0 {
      TurnedStep(Not(w.slot.present), 1);
      AdvanceNothing(w);
    } else {
      RepairedLaw(w, n - 1, e);
      if w.slot.present[n - 1] {
        TurnedStep(Not(w.slot.present), n);
      } else {
        RepairedStep(w, ForwardRepaired(w, n - 1, e), n, e);
      }
    }
  }

  // ----- one processing pass

  function AllTrue(): (f: seq<bool>)
    ensures |f| == K && Count(f) == K
  {
    var f := Repeat(true, K);
    CountExtremes(f);
    f
  }

  /** What is present after a pass: everything, once all parity is there; otherwise what was stored. */
  function Settled(present: seq<bool>, gate: bool): (f: seq<bool>)
    requires |present| == K
    ensures |f| == K
  {
    if gate then AllTrue() else present
  }

  lemma FullIsAllTrue(f: seq<bool>)
    requires |f| == K
    ensures Count(f) == K <==> f == AllTrue()
  {
    CountExtremes(f);
  }

  ghost predicate KeepsIdentity(s: Slot, s': Slot) {
    && s'.inUse == s.inUse && s'.genId == s.genId && s'.len == s.len
    && s'.parity == s.parity && s'.parityPresent == s.parityPresent
  }

  ghost predicate ForwardedIsPresent(s: Slot)
    requires WellSized(s)
  {
    forall i :: 0 <= i < K && s.forwarded[i] ==> s.present[i]
  }

  /** From w to w': nothing lost, what is present is forwarded, and the newly forwarded rows went out once each. */
  ghost predicate Passed(w: World, w': World)
    requires WellSized(w.slot) && WellSized(w'.slot)
  {
    && KeepsIdentity(w.slot, w'.slot)
    && w'.slot.present == w'.slot.forwarded
    && Prefix(w.log, w'.log)
    && DeliveredOnce(w'.log[|w.log|..], w.slot.genId, Rows(w'.slot), Minus(w'.slot.forwarded, w.slot.forwarded))
  }

  lemma AdvancedIsPassed(w: World, w': World, on: seq<bool>)
    requires WellSized(w.slot) && WellSized(w'.slot) && |on| == K && Advanced(w, w', on)
    requires Union(w.slot.present, on) == Union(w.slot.forwarded, on)
    requires on == Minus(Union(w.slot.forwarded, on), w.slot.forwarded)
    ensures Passed(w, w')
  {
    assert Rows(w'.slot) == Rows(w.slot);
  }

  lemma PassOriginals(w: World, e: Env)
    requires WellSized(w.slot) && ForwardedIsPresent(w.slot)
    ensures var w' := ForwardOriginals(w, K, e);
      && Passed(w, w') && w'.slot == w.slot.(forwarded := w.slot.present, lastFwd := w'.slot.lastFwd,
                                             usefulBytes := w'.slot.usefulBytes)
  {
    var on := Minus(w.slot.present, w.slot.forwarded);
    OriginalsLaw(w, K, e);
    assert Turned(on, K) == on;
    assert Union(w.slot.present, on) == w.slot.present;
    assert Union(w.slot.forwarded, on) == w.slot.present;
    AdvancedIsPassed(w, ForwardOriginals(w, K, e), on);
  }

  lemma PassRepaired(w: World, e: Env)
    requires WellSized(w.slot) && w.slot.forwarded == w.slot.present
    ensures var w' := ForwardRepaired(w, K, e);
      && Passed(w, w') && w'.slot.present == AllTrue() && w'.slot.data == w.slot.data
  {
    var on := Not(w.slot.present);
    RepairedLaw(w, K, e);
    assert Turned(on, K) == on;
    assert Union(w.slot.present, on) == AllTrue();
    assert on == Minus(AllTrue(), w.slot.forwarded);
    AdvancedIsPassed(w, ForwardRepaired(w, K, e), on);
  }

  /** Decoding with every stored row already forwarded. */
  lemma DecodeLaw(w: World, e: Env)
    requires WellSized(w.slot) && EnvOk(e) && w.slot.inUse && w.slot.len > 0
    requires w.slot.forwarded == w.slot.present
    ensures var w' := Decode(w, e);
      && Passed(w, w')
      && w'.slot.present == Settled(w.slot.present, e.r > 0 && AllParity(w.slot, e.r))
      && w'.slot.data == (if GateOpen(w.slot, e.r) then DecodedRows(w.slot, e.codec, e.r, w.slot.len) else w.slot.data)
  {
    FullIsAllTrue(w.slot.present);
    if GateOpen(w.slot, e.r) {
      var w1 := DecodeColumns(w, e);
      PassRepaired(w1, e);
      var w2 := ForwardRepaired(w1, K, e);
      assert Rows(Decode(w, e).slot) == Rows(w2.slot);
    } else {
      assert Minus(w.slot.forwarded, w.slot.forwarded) == Repeat(false, K);
    }
  }

  lemma PassChain(w: World, w1: World, w2: World)
    requires WellSized(w.slot) && WellSized(w1.slot) && WellSized(w2.slot)
    requires Passed(w, w1) && Passed(w1, w2) && ForwardedIsPresent(w.slot)
    requires forall i :: 0 <= i < K && w1.slot.present[i] ==> w2.slot.present[i] && w2.slot.data[i] == w1.slot.data[i]
    requires forall i :: 0 <= i < K && w.slot.forwarded[i] ==> w1.slot.forwarded[i]
    ensures Passed(w, w2)
  {
    var id := w.slot.genId;
    var o1, o2 := w1.log[|w.log|..], w2.log[|w1.log|..];
    var f1, f2 := Minus(w1.slot.forwarded, w.slot.forwarded), Minus(w2.slot.forwarded, w1.slot.forwarded);
    DeliveriesAgree(o1, id, Rows(w1.slot), Rows(w2.slot), f1);
    DeliveriesCompose(o1, o2, id, Rows(w2.slot), f1, f2);
    assert Union(f1, f2) == Minus(w2.slot.forwarded, w.slot.forwarded);
    SuffixesJoin(w.log, w1.log, w2.log);
  }

  lemma DecodeKeepsPresentRows(s: Slot, e: Env)
    requires WellSized(s) && EnvOk(e)
    ensures forall i :: 0 <= i < K && s.present[i] ==> DecodedRows(s, e.codec, e.r, s.len)[i] == s.data[i]
  {
  }

  lemma SameColumns(s: Slot, s': Slot, e: Env)
    requires WellSized(s) && WellSized(s') && EnvOk(e)
    requires s'.data == s.data && s'.present == s.present && s'.parity == s.parity && s'.len == s.len
    ensures DecodedRows(s', e.codec, e.r, s.len) == DecodedRows(s, e.codec, e.r, s.len)
  {
    forall i, j | 0 <= i < K && 0 <= j < MAX_PKT_LEN
      ensures DecodedRows(s', e.codec, e.r, s.len)[i][j] == DecodedRows(s, e.codec, e.r, s.len)[i][j]
    {
      assert ColumnWord(s', e.r, j) == ColumnWord(s, e.r, j);
    }
    forall i | 0 <= i < K
      ensures DecodedRows(s', e.codec, e.r, s.len)[i] == DecodedRows(s, e.codec, e.r, s.len)[i]
    {
    }
  }

  lemma PassComplete(w: World, w1: World)
    requires WellSized(w.slot) && WellSized(w1.slot) && Passed(w, w1)
    ensures var w' := Complete(w1);
      Passed(w, w') && w'.slot.data == w1.slot.data && w'.slot.present == w1.slot.present
  {
    assert Rows(Complete(w1).slot) == Rows(w1.slot);
  }

  ghost predicate SettledRows(s: Slot, s': Slot, c: Codec, r: nat)
    requires WellSized(s) && WellSized(s') && r <= MAX_PARITY && Shaped(c, r)
  {
    var gate := r > 0 && AllParity(s, r);
    && s'.present == Settled(s.present, gate)
    && s'.data == (if gate && Count(s.present) < K then DecodedRows(s, c, r, s.len) else s.data)
  }

  lemma PassDecode(w: World, w1: World, w2: World, e: Env)
    requires WellSized(w.slot) && WellSized(w1.slot) && WellSized(w2.slot) && EnvOk(e) && ForwardedIsPresent(w.slot)
    requires w.slot.inUse && w.slot.len > 0
    requires Passed(w, w1) && w1.slot.data == w.slot.data && w1.slot.present == w.slot.present
    requires Passed(w1, w2) && w2.slot.present == Settled(w1.slot.present, e.r > 0 && AllParity(w1.slot, e.r))
    requires w2.slot.data == (if GateOpen(w1.slot, e.r) then DecodedRows(w1.slot, e.codec, e.r, w1.slot.len)
                              else w1.slot.data)
    ensures Passed(w, w2) && SettledRows(w.slot, w2.slot, e.codec, e.r)
  {
    SameColumns(w.slot, w1.slot, e);
    PassChain(w, w1, w2);
  }

  /** One pass over a slot whose fragments have just been stored. */
  lemma ProcessLaw(w: World, e: Env)
    requires WellSized(w.slot) && EnvOk(e) && w.slot.inUse && w.slot.len > 0 && ForwardedIsPresent(w.slot)
    ensures Passed(w, Process(w, e)) && SettledRows(w.slot, Process(w, e).slot, e.codec, e.r)
  {
    PassOriginals(w, e);
    var w1 := ForwardOriginals(w, K, e);
    DecodeLaw(w1, e);
    var w2 := Decode(w1, e);
    PassDecode(w, w1, w2, e);
    PassComplete(w, w2);
  }

  // ----- slots that are wiped

  /** A slot of another generation, or of the same one with packets of another length, is forgotten: whatever it holds,
      the handler does what it does with a blank one. */
  lemma OtherSlotIsForgotten(w: World, f: Fragment, e: Env)
    requires WellSized(w.slot) && EnvOk(e) && Acceptable(f)
    requires !(w.slot.inUse && w.slot.genId == f.genId) || (w.slot.len != 0 && w.slot.len != f.originalLen)
    ensures OnFragment(w, f, e) == OnFragment(w.(slot := BlankSlot()), f, e)
  {
    assert Lookup(w, f, e) == Lookup(w.(slot := BlankSlot()), f, e);
  }

  /** The first fragment that can be stored is all that the new slot then knows before it is forwarded. */
  lemma NewSlotHolds(w: World, f: Fragment, e: Env)
    requires WellSized(w.slot) && EnvOk(e) && Acceptable(f) && Storable(f, e.r)
    requires !(w.slot.inUse && w.slot.genId == f.genId)
    ensures var s := Store(Lookup(w, f, e), f, e.r).slot;
      && s.inUse && s.genId == f.genId && s.len == f.originalLen && s.firstRx == e.now
      && (forall i :: 0 <= i < K ==> (s.present[i] <==> f.kind == DATA && f.index == i))
      && (forall p :: 0 <= p < MAX_PARITY ==> (s.parityPresent[p] <==> f.kind == PARITY && f.index == K + p))
      && (f.kind == DATA ==> s.data[f.index][..s.len] == f.payload[..s.len])
      && (f.kind == PARITY ==> s.parity[f.index - K][..s.len] == f.payload[..s.len])
  {
  }
}
