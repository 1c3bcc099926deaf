/** What the network may lose. */
module RsRepair {
  import opened Bags
  import opened Base
  import opened Deliveries
  import opened RsCodec
  import opened Wire
  import opened RsSlot
  import opened RsGeneration
  import opened RsGateway
  import opened RsTable
  import opened RsComposition
  import opened RsPipeline
  import RsSystem

  // ----- what has been sent

  /** In every run, packet i of a generation was sent on path B if i is odd and on path A otherwise; of every full
      generation that is neither dropped nor pending so was parity p, for every p < r; and of the others none. */
  lemma EverythingIsSent(evs: seq<RsSystem.Event>, c: Codec, r: nat, serial: nat)
    requires Shaped(c, r) && 0 < serial <= RsSystem.Run(evs, c, r).gw.serial
    ensures var gw := RsSystem.Run(evs, c, r).gw; var h := gw.history[serial];
      && (forall i :: 0 <= i < |h| ==> SentOn(gw, i % 2 == 1, SentData(serial, i, h[i])))
      && ValidPackets(h)
      && (if Encoded(gw, serial)
          then forall p :: 0 <= p < r ==> SentOn(gw, p % 2 == 1, SentParity(c, r, Batch(serial, h), p))
          else NoParity(gw.pathA, serial) && NoParity(gw.pathB, serial))
  {
    var s := RsSystem.Run(evs, c, r);
    var h := s.gw.history[serial];
    forall i | 0 <= i < |h|
      ensures SentOn(s.gw, i % 2 == 1, SentData(serial, i, h[i]))
    {
      assert IsData(s.gw, serial, i);
      GenuineIsSentOn(s.gw, c, r, serial, DataMark(i));
    }
    if Encoded(s.gw, serial) {
      forall p | 0 <= p < r
        ensures SentOn(s.gw, p % 2 == 1, SentParity(c, r, Batch(serial, h), p))
      {
        GenuineIsSentOn(s.gw, c, r, serial, ParityMark(p));
      }
    } else {
      NotEncodedHasNoParity(s.gw, c, r, serial);
    }
  }

  ghost predicate SentOn(gw: Gateway, onB: bool, x: Sent) {
    x in RsSystem.PathLog(gw, onB)
  }

  /** What is on a path under a place is the genuine fragment of that place. */
  lemma GenuineIsSentOn(gw: Gateway, c: Codec, r: nat, serial: nat, m: Mark)
    requires Inv(gw, c, r) && IsOn(PathOf(gw, m), serial, m)
    ensures 0 < serial <= gw.serial
    ensures m.DataMark? ==>
              m.i < |gw.history[serial]| && SentOn(gw, OnPathB(m), SentData(serial, m.i, gw.history[serial][m.i]))
    ensures m.ParityMark? ==> m.p < r && |gw.history[serial]| == K && ValidPackets(gw.history[serial])
    ensures m.ParityMark? ==> SentOn(gw, OnPathB(m), SentParity(c, r, Batch(serial, gw.history[serial]), m.p))
  {
    var log := PathOf(gw, m);
    var k :| 0 <= k < |log| && log[k].serial == serial && log[k].mark == m;
    assert Genuine(gw, c, r, log[k]);
  }

  lemma NotEncodedHasNoParity(gw: Gateway, c: Codec, r: nat, serial: nat)
    requires Inv(gw, c, r) && 0 < serial <= gw.serial && !Encoded(gw, serial)
    ensures NoParity(gw.pathA, serial) && NoParity(gw.pathB, serial)
  {
    if |gw.history[serial]| != K || !Closed(gw, serial) {
      NoParityWhileOpen(gw, c, r, serial, gw.pathA, false);
      NoParityWhileOpen(gw, c, r, serial, gw.pathB, true);
    }
  }

  lemma NoParityWhileOpen(gw: Gateway, c: Codec, r: nat, serial: nat, log: seq<Sent>, isB: bool)
    requires Shaped(c, r) && HistoryOk(gw) && PathOk(gw, c, r, log, isB)
    requires 0 < serial <= gw.serial && (|gw.history[serial]| != K || !Closed(gw, serial))
    ensures NoParity(log, serial)
  {
    forall k | 0 <= k < |log| && log[k].serial == serial
      ensures log[k].mark.DataMark?
    {
      assert Genuine(gw, c, r, log[k]);
    }
  }

  // ----- what may be lost

  /** Everything that was sent of the generation has been taken off the paths. */
  ghost predicate Landed(s: RsSystem.System, serial: nat)
    requires RsSystem.ChannelInv(s)
  {
    forall m :: !RsSystem.InFlight(s, serial, m)
  }

  /** The network lost no parity of an encoded generation and at most r of its packets, and of the others nothing. */
  ghost predicate LossesWithin(s: RsSystem.System, r: nat, serial: nat)
    requires RsSystem.ChannelInv(s) && HistoryOk(s.gw)
  {
    if Encoded(s.gw, serial)
    then Count(Losses(s, serial)) <= r && forall p :: 0 <= p < r ==> !RsSystem.Lost(s, serial, ParityMark(p))
    else Count(Losses(s, serial)) == 0
  }

  lemma ArrivedUnlessLost(s: RsSystem.System, serial: nat, m: Mark)
    requires RsSystem.ChannelInv(s) && Landed(s, serial) && IsOn(PathOf(s.gw, m), serial, m)
    ensures RsSystem.Arrived(s, serial, m) || RsSystem.Lost(s, serial, m)
  {
    var log := PathOf(s.gw, m);
    var k :| 0 <= k < |log| && log[k].serial == serial && log[k].mark == m;
    var h := RsSystem.Hop(OnPathB(m), k);
    assert RsSystem.Matches(RsSystem.Item(s, h), serial, m);
    assert k < |RsSystem.Fate(s, h.onB)| by {
      assert !RsSystem.InFlight(s, serial, m);
    }
    if RsSystem.Fate(s, h.onB)[k] {
      assert RsSystem.HopOk(s, h);
    }
  }

  lemma NothingLostArrives(s: RsSystem.System, c: Codec, r: nat, serial: nat)
    requires Inv(s.gw, c, r) && RsSystem.ChannelInv(s) && 0 < serial <= s.gw.serial && Landed(s, serial)
    requires Count(Losses(s, serial)) == 0
    ensures AllDataArrived(s, serial)
  {
    CountExtremes(Losses(s, serial));
    assert ValidPackets(s.gw.history[serial]);
    forall i | 0 <= i < |s.gw.history[serial]|
      ensures RsSystem.Arrived(s, serial, DataMark(i))
    {
      assert IsData(s.gw, serial, i);
      ArrivedUnlessLost(s, serial, DataMark(i));
      assert !Losses(s, serial)[i];
    }
  }

  /** The host has sent enough: whatever is lost within these bounds can be recovered. */
  lemma LossesAreRecoverable(s: RsSystem.System, c: Codec, r: nat, serial: nat)
    requires Inv(s.gw, c, r) && RsSystem.ChannelInv(s) && 0 < serial <= s.gw.serial
    requires Landed(s, serial) && LossesWithin(s, r, serial)
    ensures Recoverable(s, r, serial)
  {
    if Count(Losses(s, serial)) == 0 {
      NothingLostArrives(s, c, r, serial);
    } else {
      forall p | 0 <= p < r
        ensures RsSystem.Arrived(s, serial, ParityMark(p))
      {
        assert IsOn(PathOf(s.gw, ParityMark(p)), serial, ParityMark(p));
        ArrivedUnlessLost(s, serial, ParityMark(p));
      }
    }
  }

  ghost predicate AllWithin(s: RsSystem.System, r: nat)
    requires RsSystem.ChannelInv(s) && HistoryOk(s.gw)
  {
    forall serial :: 0 < serial <= s.gw.serial ==> Landed(s, serial) && LossesWithin(s, r, serial)
  }

  /** The whole pipeline in terms of the network: in every run that ends with empty paths, in which no parity and at
      most r packets of each encoded generation and no packet of any other were lost, exactly the intercepted packets
      are handed on. */
  lemma LossesAreRepaired(evs: seq<RsSystem.Event>, trace: seq<Datagram>, e: Env)
    requires EnvOk(e) && e.r != 1 && Correct(e.codec, e.r)
    requires AllIp(RsSystem.Run(evs, e.codec, e.r).gw) && AllWithin(RsSystem.Run(evs, e.codec, e.r), e.r)
    requires Carries(trace, Items(RsSystem.Run(evs, e.codec, e.r))) && Orderly(trace)
    ensures AllWellformed(trace)
    ensures multiset(PacketsOf(Receive(trace, e).log)) == multiset(Intercepted(evs))
  {
    var s := RsSystem.Run(evs, e.codec, e.r);
    forall serial | 0 < serial <= s.gw.serial
      ensures Recoverable(s, e.r, serial)
    {
      LossesAreRecoverable(s, e.codec, e.r, serial);
    }
    EverythingIsHandedOn(evs, trace, e);
  }

  // ----- a run in which a packet is lost and handed on

  /** After eight packets of one length, and the end of the receive batch, everything of generation 1 has been sent. */
  lemma FirstIsEncoded(pkts: seq<Packet>, c: Codec, r: nat) returns (evs: seq<RsSystem.Event>, s: RsSystem.System)
    requires Shaped(c, r) && |pkts| == K && RsSystem.OneSize(pkts)
    ensures s == RsSystem.Run(evs, c, r) && s.fateA == [] && s.fateB == []
    ensures s.gw.history == [[], pkts] && s.gw.serial == 1 && Encoded(s.gw, 1)
  {
    evs, s := RsSystem.FillFirst(pkts, c, r);
    BatchEndKeepsInv(s.gw, c, r);
    ParityKeepsData(s.gw, c, r, SendParity(s.gw, c, r, s.gw.pending.value, r));
    RsSystem.UnfoldRun(evs, RsSystem.BatchEnd, c, r);
    evs, s := evs + [RsSystem.BatchEnd], RsSystem.Step(s, RsSystem.BatchEnd, c, r);
  }

  /** The first fragment on path A is a packet of generation 1. */
  lemma FirstIsData(gw: Gateway, c: Codec, r: nat)
    requires Inv(gw, c, r) && gw.serial == 1 && |gw.history[1]| == K
    ensures |gw.pathA| > 0 && gw.pathA[0].serial == 1 && gw.pathA[0].mark.DataMark? && gw.pathA[0].mark.i < K
  {
    assert IsData(gw, 1, 0);
    assert IsOn(gw.pathA, 1, DataMark(0));
    var k :| 0 <= k < |gw.pathA| && gw.pathA[k].serial == 1 && gw.pathA[k].mark == DataMark(0);
    assert Genuine(gw, c, r, gw.pathA[0]);
    if gw.pathA[0].mark.ParityMark? {
      assert Ordered(gw.pathA);
    }
  }

  /** The first fragment of path A is lost, everything else arrives. */
  lemma LoseOneFragment(evs: seq<RsSystem.Event>, s: RsSystem.System, c: Codec, r: nat)
    returns (evs': seq<RsSystem.Event>, s': RsSystem.System)
    requires Shaped(c, r) && s == RsSystem.Run(evs, c, r) && s.fateA == [] && s.fateB == [] && |s.gw.pathA| > 0
    ensures s' == RsSystem.Run(evs', c, r) && s'.gw == s.gw
    ensures s'.fateA == [false] + Repeat(true, |s.gw.pathA| - 1) && s'.fateB == Repeat(true, |s.gw.pathB|)
  {
    var lose := RsSystem.Take(false, true);
    RsSystem.UnfoldRun(evs, lose, c, r);
    var s1 := RsSystem.Step(s, lose, c, r);
    assert s1.fateA == [false];
    evs', s' := RsSystem.Drain(evs + [lose], s1, false, |s.gw.pathA| - 1, c, r);
    evs', s' := RsSystem.Drain(evs', s', true, |s.gw.pathB|, c, r);
    assert [] + Repeat(true, |s.gw.pathB|) == Repeat(true, |s.gw.pathB|);
  }

  ghost predicate OnlyFirstOfA(s: RsSystem.System) {
    && |s.gw.pathA| > 0 && s.fateA == [false] + Repeat(true, |s.gw.pathA| - 1)
    && s.fateB == Repeat(true, |s.gw.pathB|)
  }

  lemma OnlyFirstIsLost(s: RsSystem.System, serial: nat, m: Mark)
    requires RsSystem.ChannelInv(s) && OnlyFirstOfA(s)
    ensures RsSystem.Lost(s, serial, m) <==> RsSystem.Matches(s.gw.pathA[0], serial, m)
    ensures Landed(s, serial)
  {
    var first := RsSystem.Hop(false, 0);
    assert RsSystem.Item(s, first) == s.gw.pathA[0] && !RsSystem.Fate(s, false)[0];
    assert forall h: RsSystem.Hop :: h.at < |RsSystem.Fate(s, h.onB)| && !RsSystem.Fate(s, h.onB)[h.at] ==> h == first;
  }

  lemma {:induction false} OnlyOneSet(flags: seq<bool>, i: nat)
    requires forall j :: 0 <= j < |flags| && flags[j] ==> j == i
    ensures Count(flags) <= 1 && (i >= |flags| ==> Count(flags) == 0)
  {
    if flags == [] {
    } else {
      OnlyOneSet(flags[..|flags| - 1], i);
    }
  }

  lemma OneLossIsWithin(s: RsSystem.System, c: Codec, r: nat)
    requires Inv(s.gw, c, r) && RsSystem.ChannelInv(s) && OnlyFirstOfA(s) && r > 0 && Encoded(s.gw, 1)
    requires s.gw.serial == 1
    requires s.gw.pathA[0].serial == 1 && s.gw.pathA[0].mark.DataMark? && s.gw.pathA[0].mark.i < K
    ensures RsSystem.Lost(s, 1, s.gw.pathA[0].mark) && AllWithin(s, r)
  {
    forall m
      ensures RsSystem.Lost(s, 1, m) <==> m == s.gw.pathA[0].mark
    {
      OnlyFirstIsLost(s, 1, m);
    }
    OnlyOneSet(Losses(s, 1), s.gw.pathA[0].mark.i);
    OnlyFirstIsLost(s, 1, s.gw.pathA[0].mark);
  }

  lemma OneSerialIsOrderly(trace: seq<Datagram>, serial: nat)
    requires forall k :: 0 <= k < |trace| ==> trace[k].serial == serial
    ensures Orderly(trace)
  {
    forall n | 0 <= n < |trace|
      ensures Fits(trace[..n], serial)
    {
      LastUserOfOne(trace[..n], serial);
    }
  }

  lemma {:induction false} LastUserOfOne(trace: seq<Datagram>, serial: nat)
    requires forall k :: 0 <= k < |trace| ==> trace[k].serial == serial
    ensures LastUser(trace, SlotIndex(serial)).Some? ==> LastUser(trace, SlotIndex(serial)).value == serial
    decreases |trace|
  {
    if |trace| == 0 {
    } else {
      LastUserOfOne(trace[..|trace| - 1], serial);
    }
  }

  /** All fragments that arrive belong to generation 1. */
  lemma ArrivalsAreOfFirst(s: RsSystem.System, c: Codec, r: nat, trace: seq<Datagram>)
    requires Inv(s.gw, c, r) && RsSystem.ChannelInv(s) && s.gw.serial == 1 && Carries(trace, Items(s))
    ensures Orderly(trace)
  {
    ItemsAreGenuine(s, c, r);
    OneSerialIsOrderly(trace, 1);
  }

  lemma FirstHistory(pkts: seq<Packet>)
    ensures Flatten([[], pkts]) == pkts
  {
    var none: seq<seq<Packet>> := [[]];
    FlattenLast(none, pkts);
    FlattenLast<Packet>([], []);
    assert [] + none == none && none + [pkts] == [[], pkts];
  }

  lemma FirstIsHandedOn(evs: seq<RsSystem.Event>, s: RsSystem.System, trace: seq<Datagram>, e: Env)
    requires EnvOk(e) && e.r >= 2 && Correct(e.codec, e.r) && s == RsSystem.Run(evs, e.codec, e.r)
    requires s.gw.serial == 1 && |s.gw.history[1]| > 0 && |s.gw.history[1][0]| >= MIN_IP
    requires AllWithin(s, e.r) && Carries(trace, Items(s))
    ensures AllWellformed(trace) && multiset(PacketsOf(Receive(trace, e).log)) == multiset(Intercepted(evs))
  {
    ArrivalsAreOfFirst(s, e.codec, e.r, trace);
    LossesAreRepaired(evs, trace, e);
  }

  /** With any two or more parity fragments, any codec that keeps its contract, and any eight packets of one length, a
      run in which the network loses a packet and the receiver hands on all eight. */
  lemma LostPacketIsRebuilt(pkts: seq<Packet>, e: Env)
    returns (evs: seq<RsSystem.Event>, s: RsSystem.System, i: nat)
    requires EnvOk(e) && e.r >= 2 && Correct(e.codec, e.r)
    requires |pkts| == K && RsSystem.OneSize(pkts) && |pkts[0]| >= MIN_IP
    ensures s == RsSystem.Run(evs, e.codec, e.r) && Intercepted(evs) == pkts
    ensures i < K && RsSystem.Lost(s, 1, DataMark(i))
    ensures forall trace :: Carries(trace, Items(s)) ==>
              AllWellformed(trace) && multiset(PacketsOf(Receive(trace, e).log)) == multiset(pkts)
  {
    evs, s := FirstIsEncoded(pkts, e.codec, e.r);
    FirstIsData(s.gw, e.codec, e.r);
    evs, s := LoseOneFragment(evs, s, e.codec, e.r);
    i := s.gw.pathA[0].mark.i;
    OneLossIsWithin(s, e.codec, e.r);
    HistoryIsIntercepted(evs, e.codec, e.r);
    FirstHistory(pkts);
    forall trace | Carries(trace, Items(s))
      ensures AllWellformed(trace) && multiset(PacketsOf(Receive(trace, e).log)) == multiset(pkts)
    {
      FirstIsHandedOn(evs, s, trace, e);
    }
  }
}
