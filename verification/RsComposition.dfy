/** Host, paths and receiver together: what the receiver hands on is what the host intercepted. */
module RsComposition {
  import opened Bags
  import opened Base
  import opened Deliveries
  import opened RsCodec
  import opened Wire
  import opened RsSlot
  import opened RsSlotLaws
  import opened RsGeneration
  import opened RsGateway
  import opened RsTable
  import RsSystem
  import RsDelivery

  // ----- generations seen from both ends

  /** The generation of a serial number; places that were never filled are padded. */
  function GenOf(gw: Gateway, s: nat): Generation
    requires HistoryOk(gw) && 0 < s <= gw.serial
  {
    var h := gw.history[s];
    Generation(WireId(s), |h[0]|, seq(K, i requires 0 <= i < K => if i < |h| then h[i] else Repeat<Byte>(0, |h[0]|)))
  }

  /** Everything intercepted is at least an IP header. */
  ghost predicate AllIp(gw: Gateway)
    requires HistoryOk(gw)
  {
    forall s :: 0 < s <= gw.serial ==> |gw.history[s][0]| >= MIN_IP
  }

  lemma FragmentBelongs(gw: Gateway, c: Codec, r: nat, x: Sent)
    requires Shaped(c, r) && HistoryOk(gw) && Genuine(gw, c, r, x)
    ensures var g := GenOf(gw, x.serial);
      && ValidGeneration(g) && ValidMark(x.mark, r) && x.frag == FragmentOf(c, r, g, x.mark)
  {
    var h := gw.history[x.serial];
    var g := GenOf(gw, x.serial);
    assert ValidPackets(h);
    forall i | 0 <= i < K
      ensures |g.rows[i]| == g.len
    {
      if i < |h| {
        assert g.rows[i] == h[i];
      } else {
        assert g.rows[i] == Repeat<Byte>(0, |h[0]|);
      }
    }
    if x.mark.ParityMark? {
      assert GenOf(gw, x.serial).rows == h;
    }
  }

  /** The places of generation s among some fragments, in order. */
  function MarksOf(xs: seq<Sent>, s: nat): seq<Mark> {
    if xs == [] then []
    else MarksOf(xs[..|xs| - 1], s) + if xs[|xs| - 1].serial == s then [xs[|xs| - 1].mark] else []
  }

  lemma MarksOfAppend(xs: seq<Sent>, x: Sent, s: nat)
    ensures MarksOf(xs + [x], s) == if x.serial == s then MarksOf(xs, s) + [x.mark] else MarksOf(xs, s)
  {
    assert (xs + [x])[..|xs|] == xs;
  }

  // ----- the unbounded receiver on what arrives

  /** A generation's slot and deliveries are those of its places. */
  ghost predicate Attends(slot: Option<Slot>, outs: seq<Delivery>, gw: Gateway, c: Codec, r: nat, ms: seq<Mark>, s: nat)
    requires Shaped(c, r) && r <= MAX_PARITY && HistoryOk(gw)
  {
    if ms == [] then slot.None? && outs == []
    else
      && slot.Some? && 0 < s <= gw.serial
      && ValidGeneration(GenOf(gw, s))
      && RsDelivery.Tracks(slot.value, outs, GenOf(gw, s), c, r, ms)
      && (RsDelivery.GateWithinParity(ms, r) && Correct(c, r) ==> RsDelivery.RowsAreGenuine(slot.value, GenOf(gw, s)))
  }

  function SlotFor(id: Ideal, s: nat): Option<Slot> {
    if s in id.slots then Some(id.slots[s]) else None
  }

  /** The receiver's view of generation s after the fragments xs have arrived. */
  ghost predicate Follows(id: Ideal, gw: Gateway, c: Codec, r: nat, xs: seq<Sent>, s: nat)
    requires Shaped(c, r) && r <= MAX_PARITY && HistoryOk(gw)
  {
    Attends(SlotFor(id, s), Of(id.log, s), gw, c, r, MarksOf(xs, s), s)
  }

  /** The datagrams carry exactly these fragments. */
  ghost predicate Carries(trace: seq<Datagram>, xs: seq<Sent>) {
    |trace| == |xs| && forall k :: 0 <= k < |trace| ==> trace[k].serial == xs[k].serial && trace[k].frag == xs[k].frag
  }

  ghost predicate AllGenuine(gw: Gateway, c: Codec, r: nat, xs: seq<Sent>)
    requires Shaped(c, r) && HistoryOk(gw)
  {
    forall k :: 0 <= k < |xs| ==> Genuine(gw, c, r, xs[k])
  }

  lemma GenuineIsWellformed(gw: Gateway, c: Codec, r: nat, x: Sent, d: Datagram)
    requires Shaped(c, r) && r <= MAX_PARITY && HistoryOk(gw) && Genuine(gw, c, r, x)
    requires d.serial == x.serial && d.frag == x.frag
    ensures Wellformed(d)
  {
    FragmentBelongs(gw, c, r, x);
  }

  /** The generation a fragment belongs to. */
  lemma OwnStep(id: Ideal, gw: Gateway, c: Codec, r: nat, xs: seq<Sent>, x: Sent, d: Datagram, e: Env)
    requires EnvOk(e) && e.codec == c && e.r == r && HistoryOk(gw) && ValidIdeal(id)
    requires Genuine(gw, c, r, x) && d.serial == x.serial && d.frag == x.frag && Wellformed(d)
    requires Follows(id, gw, c, r, xs, x.serial)
    ensures Follows(OnIdeal(id, d, e), gw, c, r, xs + [x], x.serial)
  {
    var s := x.serial;
    var g, ms := GenOf(gw, s), MarksOf(xs, s);
    FragmentBelongs(gw, c, r, x);
    MarksOfAppend(xs, x, s);
    var w := World(Entry(id.slots, s), id.stats, []);
    RsDelivery.HandlerTracks(w, Of(id.log, s), g, x.mark, At(e, d), ms);
    var w' := OnFragment(w, d.frag, At(e, d));
    OfTagged(id.log, s, w'.log, s);
    if RsDelivery.GateWithinParity(ms + [x.mark], r) && Correct(c, r) {
      RsDelivery.GatePrefix(ms + [x.mark], r, |ms|);
      assert (ms + [x.mark])[..|ms|] == ms;
      RsDelivery.HandlerKeepsBytes(w, Of(id.log, s), g, x.mark, At(e, d), ms);
    }
  }

  /** Any other generation is not touched. */
  lemma OthersStay(id: Ideal, xs: seq<Sent>, x: Sent, d: Datagram, e: Env, s: nat)
    requires EnvOk(e) && ValidIdeal(id) && d.serial == x.serial && Wellformed(d) && s != x.serial
    ensures var id' := OnIdeal(id, d, e);
      SlotFor(id', s) == SlotFor(id, s) && Of(id'.log, s) == Of(id.log, s) && MarksOf(xs + [x], s) == MarksOf(xs, s)
  {
    MarksOfAppend(xs, x, s);
    var w' := OnFragment(World(Entry(id.slots, x.serial), id.stats, []), d.frag, At(e, d));
    OfTagged(id.log, x.serial, w'.log, s);
  }

  lemma OtherStep(id: Ideal, gw: Gateway, c: Codec, r: nat, xs: seq<Sent>, x: Sent, d: Datagram, e: Env, s: nat)
    requires EnvOk(e) && e.codec == c && e.r == r && HistoryOk(gw) && ValidIdeal(id)
    requires d.serial == x.serial && Wellformed(d) && s != x.serial
    requires Follows(id, gw, c, r, xs, s)
    ensures Follows(OnIdeal(id, d, e), gw, c, r, xs + [x], s)
  {
    OthersStay(id, xs, x, d, e, s);
  }

  lemma FollowsStep(id: Ideal, gw: Gateway, xs: seq<Sent>, x: Sent, d: Datagram, e: Env)
    requires EnvOk(e) && HistoryOk(gw) && ValidIdeal(id)
    requires Genuine(gw, e.codec, e.r, x) && d.serial == x.serial && d.frag == x.frag && Wellformed(d)
    requires forall s :: Follows(id, gw, e.codec, e.r, xs, s)
    ensures forall s :: Follows(OnIdeal(id, d, e), gw, e.codec, e.r, xs + [x], s)
  {
    forall s: nat
      ensures Follows(OnIdeal(id, d, e), gw, e.codec, e.r, xs + [x], s)
    {
      if s == x.serial {
        OwnStep(id, gw, e.codec, e.r, xs, x, d, e);
      } else {
        OtherStep(id, gw, e.codec, e.r, xs, x, d, e, s);
      }
    }
  }

  lemma {:induction false} ReceiverFollows(gw: Gateway, xs: seq<Sent>, trace: seq<Datagram>, e: Env)
    requires EnvOk(e) && HistoryOk(gw) && AllGenuine(gw, e.codec, e.r, xs) && Carries(trace, xs)
    ensures AllWellformed(trace)
    ensures forall s :: Follows(ReceiveIdeal(trace, e), gw, e.codec, e.r, xs, s)
    decreases |xs|
  {
    if |xs| == 0 {
    } else {
      var n := |xs| - 1;
      var before, x, earlier, d := xs[..n], xs[n], trace[..n], trace[n];
      assert xs == before + [x] && trace == earlier + [d];
      ReceiverFollows(gw, before, earlier, e);
      GenuineIsWellformed(gw, e.codec, e.r, x, d);
      UnfoldReceive(earlier, d, e);
      FollowsStep(ReceiveIdeal(earlier, e), gw, before, x, d, e);
    }
  }

  // ----- the gate and the network

  /** The fragments that reached the receiver, in order of arrival. */
  function Items(s: RsSystem.System): (xs: seq<Sent>)
    requires RsSystem.ChannelInv(s)
    ensures |xs| == |s.arrived|
  {
    seq(|s.arrived|, k requires 0 <= k < |s.arrived| =>
        (assert RsSystem.HopOk(s, s.arrived[k]); RsSystem.Item(s, s.arrived[k])))
  }

  lemma ItemsAreGenuine(s: RsSystem.System, c: Codec, r: nat)
    requires Inv(s.gw, c, r) && RsSystem.ChannelInv(s)
    ensures AllGenuine(s.gw, c, r, Items(s))
  {
    forall k | 0 <= k < |s.arrived|
      ensures Genuine(s.gw, c, r, Items(s)[k])
    {
      assert RsSystem.HopOk(s, s.arrived[k]);
      RsSystem.ItemIsGenuine(s, c, r, s.arrived[k]);
    }
  }

  /** After parity on a path, no data of the same generation arrives on that path. */
  ghost predicate Separated(ms: seq<Mark>) {
    forall k, l :: 0 <= k < l < |ms| && ms[k].ParityMark? && ms[l].DataMark? ==> OnPathB(ms[k]) != OnPathB(ms[l])
  }

  ghost predicate ItemsSeparated(xs: seq<Sent>, s: nat) {
    forall k, l ::
      0 <= k < l < |xs| && xs[k].serial == s == xs[l].serial && xs[k].mark.ParityMark? && xs[l].mark.DataMark? ==>
      OnPathB(xs[k].mark) != OnPathB(xs[l].mark)
  }

  lemma ArrivalsAreSeparated(s: RsSystem.System, c: Codec, r: nat, serial: nat)
    requires Inv(s.gw, c, r) && RsSystem.ChannelInv(s)
    ensures ItemsSeparated(Items(s), serial)
  {
    var xs := Items(s);
    forall k, l | 0 <= k < l < |xs| && xs[k].serial == serial == xs[l].serial &&
                  xs[k].mark.ParityMark? && xs[l].mark.DataMark?
      ensures OnPathB(xs[k].mark) != OnPathB(xs[l].mark)
    {
      var hk, hl := s.arrived[k], s.arrived[l];
      assert RsSystem.HopOk(s, hk) && RsSystem.HopOk(s, hl);
      RsSystem.SamePathOrder(s, c, r, serial, hk, hl);
    }
  }

  /** Every place of generation s comes from some fragment of it. */
  lemma {:induction false} MarksAreItems(xs: seq<Sent>, s: nat)
    ensures forall m :: m in MarksOf(xs, s) <==> IsOn(xs, s, m)
    decreases |xs|
  {
    if xs == [] {
    } else {
      var n := |xs| - 1;
      MarksAreItems(xs[..n], s);
      forall m
        ensures IsOn(xs, s, m) <==> IsOn(xs[..n], s, m) || (xs[n].serial == s && xs[n].mark == m)
      {
        IsOnGrows(xs[..n], xs[n], s, m);
        assert xs == xs[..n] + [xs[n]];
      }
    }
  }

  lemma {:induction false} MarksAreSeparated(xs: seq<Sent>, s: nat)
    requires ItemsSeparated(xs, s)
    ensures Separated(MarksOf(xs, s))
    decreases |xs|
  {
    if xs == [] {
    } else {
      var n := |xs| - 1;
      var ms, ms' := MarksOf(xs[..n], s), MarksOf(xs, s);
      MarksAreSeparated(xs[..n], s);
      MarksAreItems(xs[..n], s);
      forall k, l | 0 <= k < l < |ms'| && ms'[k].ParityMark? && ms'[l].DataMark?
        ensures OnPathB(ms'[k]) != OnPathB(ms'[l])
      {
        if l == |ms| {
          assert ms'[k] == ms[k] && ms[k] in ms;
          var j :| 0 <= j < n && xs[..n][j].serial == s && xs[..n][j].mark == ms[k];
          assert xs[j].mark == ms[k];
        }
      }
    }
  }

  /** When the parity is complete, all the data that will ever be seen has been seen. */
  lemma GateSeesAllData(ms: seq<Mark>, r: nat, n: nat)
    requires Separated(ms) && r != 1 && n <= |ms| && ParityComplete(ms[..n], r)
    ensures DataSeen(ms[..n]) == DataSeen(ms)
  {
    forall i | 0 <= i < K && DataMark(i) in ms
      ensures DataMark(i) in ms[..n]
    {
      var l :| 0 <= l < |ms| && ms[l] == DataMark(i);
      assert ParityMark(i % 2) in ms[..n];
      var k :| 0 <= k < n && ms[..n][k] == ParityMark(i % 2);
      assert OnPathB(ms[k]) == OnPathB(ms[l]);
      assert l < n;
      assert ms[..n][l] == DataMark(i);
    }
    assert forall m :: m in ms[..n] ==> m in ms;
  }

  /** With two or more parity fragments the erasures at the gate are those at the end. */
  lemma GateCountsFinalLosses(ms: seq<Mark>, r: nat)
    requires Separated(ms) && r != 1
    ensures RsDelivery.GateWithinParity(ms, r) <==> (ParityComplete(ms, r) ==> |Missing(DataSeen(ms))| <= r)
  {
    if ParityComplete(ms, r) {
      var n := FirstGate(ms, r, |ms|);
      GateSeesAllData(ms, r, n);
    }
    forall n | 0 < n <= |ms| && RsDelivery.GateOpensAt(ms, r, n)
      ensures DataSeen(ms[..n]) == DataSeen(ms) && ParityComplete(ms, r)
    {
      GateSeesAllData(ms, r, n);
      RsDelivery.ParityGrows(ms, r, n);
    }
  }

  lemma {:induction false} FirstGate(ms: seq<Mark>, r: nat, top: nat) returns (n: nat)
    requires 0 <= top <= |ms| && ParityComplete(ms[..top], r)
    ensures 0 < n <= top && RsDelivery.GateOpensAt(ms, r, n)
    decreases top
  {
    RsDelivery.NothingSeen(r);
    assert ms[..0] == [];
    if ParityComplete(ms[..top - 1], r) {
      n := FirstGate(ms, r, top - 1);
    } else {
      n := top;
    }
  }

  /** Which packets of a generation the network lost. */
  ghost function Losses(s: RsSystem.System, serial: nat): (f: seq<bool>)
    requires RsSystem.ChannelInv(s)
    ensures |f| == K
  {
    seq(K, i requires 0 <= i < K => RsSystem.Lost(s, serial, DataMark(i)))
  }

  lemma MarksAreArrivals(s: RsSystem.System, serial: nat, m: Mark)
    requires RsSystem.ChannelInv(s)
    ensures m in MarksOf(Items(s), serial) <==> RsSystem.Arrived(s, serial, m)
  {
    var xs := Items(s);
    MarksAreItems(xs, serial);
    if IsOn(xs, serial, m) {
      var k :| 0 <= k < |xs| && xs[k].serial == serial && xs[k].mark == m;
      assert RsSystem.HopOk(s, s.arrived[k]) && RsSystem.Matches(RsSystem.Item(s, s.arrived[k]), serial, m);
    }
    if RsSystem.Arrived(s, serial, m) {
      var h := RsSystem.ArrivedAt(s, serial, m);
      var k :| 0 <= k < |s.arrived| && s.arrived[k] == h;
      assert xs[k] == RsSystem.Item(s, h);
    }
  }

  /** Once all parity has arrived, the packets not seen are the packets that the network lost. */
  lemma UnseenAreLosses(s: RsSystem.System, c: Codec, r: nat, serial: nat)
    requires Inv(s.gw, c, r) && RsSystem.ChannelInv(s) && r != 1 && RsSystem.ParityArrived(s, r, serial)
    ensures var ms := MarksOf(Items(s), serial);
      && ParityComplete(ms, r) && Separated(ms)
      && (forall i :: 0 <= i < K ==> DataSeen(ms)[i] == !Losses(s, serial)[i])
      && |Missing(DataSeen(ms))| == Count(Losses(s, serial))
  {
    var ms := MarksOf(Items(s), serial);
    forall p | 0 <= p < r
      ensures ParityMark(p) in ms
    {
      MarksAreArrivals(s, serial, ParityMark(p));
    }
    ArrivalsAreSeparated(s, c, r, serial);
    MarksAreSeparated(Items(s), serial);
    RsSystem.GateSafety(s, c, r, serial);
    forall i | 0 <= i < K
      ensures DataSeen(ms)[i] == !Losses(s, serial)[i]
    {
      MarksAreArrivals(s, serial, DataMark(i));
    }
    CountComplement(DataSeen(ms), Losses(s, serial));
  }

  lemma {:induction false} MarksPrefix(xs: seq<Sent>, n: nat, s: nat)
    requires n <= |xs|
    ensures MarksOf(xs[..n], s) <= MarksOf(xs, s)
    decreases |xs|
  {
    if n < |xs| {
      MarksPrefix(xs[..|xs| - 1], n, s);
      assert xs[..|xs| - 1][..n] == xs[..n];
    } else {
      assert xs[..n] == xs;
    }
  }

  /** Fragment n is the one that completes the parity of its generation. */
  ghost predicate CompletesParity(xs: seq<Sent>, n: nat, r: nat) {
    && n < |xs|
    && !ParityComplete(MarksOf(xs[..n], xs[n].serial), r)
    && ParityComplete(MarksOf(xs[..n], xs[n].serial) + [xs[n].mark], r)
  }

  /** Where the handler stands in front of the decoder while datagram d is handled. */
  function WorldAtDecoder(id: Ideal, d: Datagram, e: Env): (w: World)
    requires ValidIdeal(id) && EnvOk(e) && Acceptable(d.frag) && Storable(d.frag, e.r)
    ensures WellSized(w.slot)
  {
    AtDecoder(World(Entry(id.slots, d.serial), id.stats, []), d.frag, At(e, d))
  }

  /** What the decoder is about to be told. */
  function SlotAtDecoder(id: Ideal, d: Datagram, e: Env): (slot: Slot)
    requires ValidIdeal(id) && EnvOk(e) && Acceptable(d.frag) && Storable(d.frag, e.r)
    ensures WellSized(slot)
  {
    WorldAtDecoder(id, d, e).slot
  }

  /** The receiver after d: the decoder's step and completion, from there. */
  function ThroughDecoder(id: Ideal, d: Datagram, e: Env): Ideal
    requires ValidIdeal(id) && EnvOk(e) && Acceptable(d.frag) && Storable(d.frag, e.r)
  {
    var w := Complete(Decode(WorldAtDecoder(id, d, e), At(e, d)));
    Ideal(id.slots[d.serial := w.slot], w.stats, id.log + TagAll(d.serial, w.log))
  }

  lemma OnIdealGoesThroughDecoder(id: Ideal, d: Datagram, e: Env)
    requires ValidIdeal(id) && EnvOk(e) && Wellformed(d) && Storable(d.frag, e.r)
    ensures OnIdeal(id, d, e) == ThroughDecoder(id, d, e)
  {
    RsDelivery.HandlerReachesDecoder(World(Entry(id.slots, d.serial), id.stats, []), d.frag, At(e, d));
  }

  lemma HandlerGoesThroughDecoder(trace: seq<Datagram>, n: nat, e: Env)
    requires EnvOk(e) && n < |trace| && AllWellformed(trace[..n]) && Wellformed(trace[n])
    requires Storable(trace[n].frag, e.r)
    ensures AllWellformed(trace[..n + 1])
    ensures ReceiveIdeal(trace[..n + 1], e) == ThroughDecoder(ReceiveIdeal(trace[..n], e), trace[n], e)
  {
    assert trace[..n + 1] == trace[..n] + [trace[n]];
    UnfoldReceive(trace[..n], trace[n], e);
    OnIdealGoesThroughDecoder(ReceiveIdeal(trace[..n], e), trace[n], e);
  }

  lemma DecoderSeesMarks(id: Ideal, gw: Gateway, xs: seq<Sent>, x: Sent, d: Datagram, e: Env)
    requires EnvOk(e) && HistoryOk(gw) && ValidIdeal(id)
    requires Genuine(gw, e.codec, e.r, x) && d.serial == x.serial && d.frag == x.frag
    requires Follows(id, gw, e.codec, e.r, xs, x.serial) && CompletesParity(xs + [x], |xs|, e.r)
    ensures Acceptable(d.frag) && Storable(d.frag, e.r)
    ensures var slot, seen := SlotAtDecoder(id, d, e), DataSeen(MarksOf(xs, x.serial) + [x.mark]);
      slot.present == seen && (GateOpen(slot, e.r) <==> |Missing(seen)| > 0)
  {
    assert (xs + [x])[..|xs|] == xs;
    FragmentBelongs(gw, e.codec, e.r, x);
    RsDelivery.DecoderIsToldUnseen(World(Entry(id.slots, x.serial), id.stats, []), Of(id.log, x.serial),
                                   GenOf(gw, x.serial), x.mark, At(e, d), MarksOf(xs, x.serial));
  }

  lemma CompletionIsPrefix(xs: seq<Sent>, n: nat, r: nat)
    requires CompletesParity(xs, n, r)
    ensures var ms, here := MarksOf(xs, xs[n].serial), MarksOf(xs[..n], xs[n].serial) + [xs[n].mark];
      here <= ms && ParityComplete(here, r)
  {
    var serial := xs[n].serial;
    assert xs[..n + 1] == xs[..n] + [xs[n]];
    MarksOfAppend(xs[..n], xs[n], serial);
    MarksPrefix(xs, n + 1, serial);
  }

  lemma CompletedHasArrived(s: RsSystem.System, serial: nat, r: nat, here: seq<Mark>)
    requires RsSystem.ChannelInv(s) && here <= MarksOf(Items(s), serial) && ParityComplete(here, r)
    ensures RsSystem.ParityArrived(s, r, serial)
  {
    forall p | 0 <= p < r
      ensures RsSystem.Arrived(s, serial, ParityMark(p))
    {
      assert ParityMark(p) in here;
      MarksAreArrivals(s, serial, ParityMark(p));
    }
  }

  /** What is seen when the parity is complete is what is seen in the end. */
  lemma PrefixSeesLosses(s: RsSystem.System, c: Codec, r: nat, serial: nat, ms: seq<Mark>, here: seq<Mark>)
    requires Inv(s.gw, c, r) && RsSystem.ChannelInv(s) && r != 1
    requires ms == MarksOf(Items(s), serial) && here <= ms && ParityComplete(here, r)
    ensures forall i :: 0 <= i < K ==> DataSeen(here)[i] == !Losses(s, serial)[i]
    ensures |Missing(DataSeen(here))| == Count(Losses(s, serial))
  {
    CompletedHasArrived(s, serial, r, here);
    UnseenAreLosses(s, c, r, serial);
    assert ms[..|here|] == here;
    GateSeesAllData(ms, r, |here|);
  }

  lemma CompletionSeesLosses(s: RsSystem.System, c: Codec, r: nat, n: nat)
    requires Inv(s.gw, c, r) && RsSystem.ChannelInv(s) && r != 1 && CompletesParity(Items(s), n, r)
    ensures var x := Items(s)[n]; var seen := DataSeen(MarksOf(Items(s)[..n], x.serial) + [x.mark]);
      && (forall i :: 0 <= i < K ==> seen[i] == !Losses(s, x.serial)[i])
      && |Missing(seen)| == Count(Losses(s, x.serial))
  {
    var x := Items(s)[n];
    CompletionIsPrefix(Items(s), n, r);
    PrefixSeesLosses(s, c, r, x.serial, MarksOf(Items(s), x.serial), MarksOf(Items(s)[..n], x.serial) + [x.mark]);
  }

  /** When a generation's parity is complete, the erasure list that the decoder is given in that step names exactly the
      packets that the network lost, and the decoder is called exactly if there are any. */
  lemma ErasuresAreLosses(s: RsSystem.System, trace: seq<Datagram>, n: nat, e: Env)
    requires EnvOk(e) && Inv(s.gw, e.codec, e.r) && RsSystem.ChannelInv(s) && e.r != 1
    requires Carries(trace, Items(s)) && CompletesParity(Items(s), n, e.r)
    ensures AllWellformed(trace[..n]) && Acceptable(trace[n].frag) && Storable(trace[n].frag, e.r)
    ensures AllWellformed(trace[..n + 1])
    ensures ReceiveIdeal(trace[..n + 1], e) == ThroughDecoder(ReceiveIdeal(trace[..n], e), trace[n], e)
    ensures var slot, losses := SlotAtDecoder(ReceiveIdeal(trace[..n], e), trace[n], e), Losses(s, trace[n].serial);
      && |Missing(slot.present)| == Count(losses) && (GateOpen(slot, e.r) <==> Count(losses) > 0)
      && (forall i :: 0 <= i < K ==> (i in Missing(slot.present) <==> losses[i]))
  {
    var xs := Items(s);
    ItemsAreGenuine(s, e.codec, e.r);
    ReceiverFollows(s.gw, xs[..n], trace[..n], e);
    var id := ReceiveIdeal(trace[..n], e);
    assert Follows(id, s.gw, e.codec, e.r, xs[..n], xs[n].serial);
    assert (xs[..n] + [xs[n]])[..n] == xs[..n];
    DecoderSeesMarks(id, s.gw, xs[..n], xs[n], trace[n], e);
    GenuineIsWellformed(s.gw, e.codec, e.r, xs[n], trace[n]);
    HandlerGoesThroughDecoder(trace, n, e);
    CompletionSeesLosses(s, e.codec, e.r, n);
    forall i | 0 <= i < K
      ensures i in Missing(SlotAtDecoder(id, trace[n], e).present) <==> Losses(s, trace[n].serial)[i]
    {
      MissingIsAbsent(SlotAtDecoder(id, trace[n], e).present, i);
    }
  }

  // ----- what is delivered

  ghost predicate AllDataArrived(s: RsSystem.System, serial: nat)
    requires RsSystem.ChannelInv(s) && HistoryOk(s.gw) && 0 < serial <= s.gw.serial
  {
    forall i :: 0 <= i < |s.gw.history[serial]| ==> RsSystem.Arrived(s, serial, DataMark(i))
  }

  /** Generation s can be completed from what arrived: all its packets, or all its parity with at most r packets
      lost. */
  ghost predicate Recoverable(s: RsSystem.System, r: nat, serial: nat)
    requires RsSystem.ChannelInv(s) && HistoryOk(s.gw) && 0 < serial <= s.gw.serial
  {
    || AllDataArrived(s, serial)
    || (RsSystem.ParityArrived(s, r, serial) && Count(Losses(s, serial)) <= r)
  }

  /** What a slot has forwarded is what was sent, once its flags say so. */
  lemma FlagsMeanHandedOn(outs: seq<Delivery>, id: nat, g: Generation, flags: seq<bool>, packets: seq<Packet>)
    requires ValidGeneration(g) && g.len >= MIN_IP && |flags| == K && |packets| <= K
    requires DeliveredOnce(outs, id, g.rows, flags)
    requires forall i :: 0 <= i < K ==> (flags[i] <==> i < |packets|)
    requires forall i :: 0 <= i < |packets| ==> g.rows[i] == packets[i]
    ensures HandedOn(outs, packets)
  {
  }

  lemma TrackedMeansHandedOn(slot: Slot, outs: seq<Delivery>, g: Generation, c: Codec, r: nat, ms: seq<Mark>,
                             packets: seq<Packet>)
    requires ValidGeneration(g) && g.len >= MIN_IP && Shaped(c, r) && r <= MAX_PARITY && |packets| <= K
    requires RsDelivery.Tracks(slot, outs, g, c, r, ms) && RsDelivery.RowsAreGenuine(slot, g)
    requires forall i :: 0 <= i < K ==> (Settled(DataSeen(ms), ParityComplete(ms, r))[i] <==> i < |packets|)
    requires forall i :: 0 <= i < |packets| ==> g.rows[i] == packets[i]
    ensures HandedOn(outs, packets)
  {
    DeliveriesAgree(outs, g.id, Rows(slot), g.rows, slot.forwarded);
    FlagsMeanHandedOn(outs, g.id, g, slot.forwarded, packets);
  }

  /** The places of generation s that arrive are places that were sent. */
  lemma ArrivedWasSent(s: RsSystem.System, c: Codec, r: nat, serial: nat, m: Mark)
    requires Inv(s.gw, c, r) && RsSystem.ChannelInv(s) && m in MarksOf(Items(s), serial)
    ensures 0 < serial <= s.gw.serial
    ensures m.DataMark? ==> m.i < |s.gw.history[serial]|
    ensures m.ParityMark? ==> |s.gw.history[serial]| == K
  {
    MarksAreArrivals(s, serial, m);
    var h := RsSystem.ArrivedAt(s, serial, m);
    RsSystem.ItemIsGenuine(s, c, r, h);
  }

  /** Which places of the generation are seen, if every one of its packets arrived. */
  lemma AllArrivedIsSeen(s: RsSystem.System, c: Codec, r: nat, serial: nat)
    requires Inv(s.gw, c, r) && RsSystem.ChannelInv(s) && 0 < serial <= s.gw.serial && AllDataArrived(s, serial)
    ensures forall i :: 0 <= i < K ==> (DataSeen(MarksOf(Items(s), serial))[i] <==> i < |s.gw.history[serial]|)
  {
    forall i | 0 <= i < K
      ensures DataSeen(MarksOf(Items(s), serial))[i] <==> i < |s.gw.history[serial]|
    {
      MarksAreArrivals(s, serial, DataMark(i));
      if DataMark(i) in MarksOf(Items(s), serial) {
        ArrivedWasSent(s, c, r, serial, DataMark(i));
      }
    }
  }

  lemma ParityOnlyOfFull(s: RsSystem.System, c: Codec, r: nat, serial: nat)
    requires Inv(s.gw, c, r) && RsSystem.ChannelInv(s) && 0 < serial <= s.gw.serial
    requires ParityComplete(MarksOf(Items(s), serial), r)
    ensures |s.gw.history[serial]| == K
  {
    assert ParityMark(0) in MarksOf(Items(s), serial);
    ArrivedWasSent(s, c, r, serial, ParityMark(0));
  }

  lemma GateStaysWithinParity(s: RsSystem.System, c: Codec, r: nat, serial: nat)
    requires Inv(s.gw, c, r) && RsSystem.ChannelInv(s) && r != 1 && 0 < serial <= s.gw.serial
    requires Recoverable(s, r, serial)
    ensures RsDelivery.GateWithinParity(MarksOf(Items(s), serial), r)
  {
    var ms := MarksOf(Items(s), serial);
    ArrivalsAreSeparated(s, c, r, serial);
    MarksAreSeparated(Items(s), serial);
    GateCountsFinalLosses(ms, r);
    if AllDataArrived(s, serial) {
      AllArrivedIsSeen(s, c, r, serial);
      if ParityComplete(ms, r) {
        ParityOnlyOfFull(s, c, r, serial);
        CountExtremes(DataSeen(ms));
      }
    } else {
      UnseenAreLosses(s, c, r, serial);
    }
  }

  /** In the end a recoverable generation has all its packets settled, and no place beyond them. */
  lemma RecoverableSettles(s: RsSystem.System, c: Codec, r: nat, serial: nat)
    requires Inv(s.gw, c, r) && RsSystem.ChannelInv(s) && r != 1 && 0 < serial <= s.gw.serial
    requires Recoverable(s, r, serial)
    ensures var ms := MarksOf(Items(s), serial);
      && ms != []
      && forall i :: 0 <= i < K ==> (Settled(DataSeen(ms), ParityComplete(ms, r))[i] <==> i < |s.gw.history[serial]|)
  {
    var ms := MarksOf(Items(s), serial);
    assert ValidPackets(s.gw.history[serial]);
    if !AllDataArrived(s, serial) {
      UnseenAreLosses(s, c, r, serial);
    } else {
      AllArrivedIsSeen(s, c, r, serial);
      assert DataSeen(ms)[0];
    }
    if ParityComplete(ms, r) {
      ParityOnlyOfFull(s, c, r, serial);
      CountExtremes(AllTrue());
      assert ParityMark(0) in ms;
    }
  }

  lemma FollowedIsHandedOn(id: Ideal, s: RsSystem.System, serial: nat, e: Env)
    requires EnvOk(e) && Inv(s.gw, e.codec, e.r) && RsSystem.ChannelInv(s) && AllIp(s.gw)
    requires e.r != 1 && Correct(e.codec, e.r) && Follows(id, s.gw, e.codec, e.r, Items(s), serial)
    requires 0 < serial <= s.gw.serial && Recoverable(s, e.r, serial)
    ensures HandedOn(Of(id.log, serial), s.gw.history[serial])
  {
    RecoverableSettles(s, e.codec, e.r, serial);
    GateStaysWithinParity(s, e.codec, e.r, serial);
    TrackedMeansHandedOn(id.slots[serial], Of(id.log, serial), GenOf(s.gw, serial), e.codec, e.r,
                         MarksOf(Items(s), serial), s.gw.history[serial]);
  }

  /** End-to-end delivery of one generation through the unbounded receiver. */
  lemma GenerationIsHandedOn(s: RsSystem.System, serial: nat, trace: seq<Datagram>, e: Env)
    requires EnvOk(e) && Inv(s.gw, e.codec, e.r) && RsSystem.ChannelInv(s) && AllIp(s.gw)
    requires e.r != 1 && Correct(e.codec, e.r) && Carries(trace, Items(s))
    requires 0 < serial <= s.gw.serial && Recoverable(s, e.r, serial)
    ensures AllWellformed(trace)
    ensures HandedOn(Of(ReceiveIdeal(trace, e).log, serial), s.gw.history[serial])
  {
    ItemsAreGenuine(s, e.codec, e.r);
    ReceiverFollows(s.gw, Items(s), trace, e);
    FollowedIsHandedOn(ReceiveIdeal(trace, e), s, serial, e);
  }
}
