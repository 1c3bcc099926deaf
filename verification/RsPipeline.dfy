/** All generations of a run together. */
module RsPipeline {
  import opened Bags
  import opened Base
  import opened Deliveries
  import opened RsCodec
  import opened Wire
  import opened RsSlot
  import opened RsSlotLaws
  import opened RsGeneration
  import opened RsGateway
  import opened RsTable
  import opened RsComposition
  import RsSystem

  lemma TagsAreSerials(s: RsSystem.System, trace: seq<Datagram>, e: Env, k: nat)
    requires EnvOk(e) && Inv(s.gw, e.codec, e.r) && RsSystem.ChannelInv(s) && AllIp(s.gw)
    requires Carries(trace, Items(s)) && AllWellformed(trace) && k < |ReceiveIdeal(trace, e).log|
    ensures 0 < ReceiveIdeal(trace, e).log[k].0 <= s.gw.serial
  {
    var id := ReceiveIdeal(trace, e);
    ItemsAreGenuine(s, e.codec, e.r);
    ReceiverFollows(s.gw, Items(s), trace, e);
    TagHasDeliveries(id.log, k);
    assert Follows(id, s.gw, e.codec, e.r, Items(s), id.log[k].0);
  }

  // ----- from interception to history

  /** The packets that the host accepts from a run. */
  function Intercepted(evs: seq<RsSystem.Event>): seq<Packet>
    decreases |evs|
  {
    if evs == [] then []
    else
      var before, ev := Intercepted(evs[..|evs| - 1]), evs[|evs| - 1];
      if ev.Intercept? && 0 < |ev.pkt| <= MAX_PKT_LEN then before + [ev.pkt] else before
  }

  lemma AppendFlattens(gw: Gateway, pkt: Packet)
    requires HistoryOk(gw) && |gw.cur| < K && 0 < |pkt| <= MAX_PKT_LEN
    ensures Flatten(Append(gw, pkt).history) == Flatten(gw.history) + [pkt]
  {
    if |gw.cur| == 0 || |gw.cur[0]| != |pkt| {
      FlattenLast(gw.history, [pkt]);
    } else {
      var older := gw.history[..gw.serial];
      assert gw.history == older + [gw.cur] && Append(gw, pkt).history == older + [gw.cur + [pkt]];
      FlattenLast(older, gw.cur);
      FlattenLast(older, gw.cur + [pkt]);
    }
  }

  lemma StepFlattens(s: RsSystem.System, ev: RsSystem.Event, c: Codec, r: nat)
    requires Inv(s.gw, c, r)
    ensures Flatten(RsSystem.Step(s, ev, c, r).gw.history) ==
            Flatten(s.gw.history) + if ev.Intercept? && 0 < |ev.pkt| <= MAX_PKT_LEN then [ev.pkt] else []
  {
    if ev.Intercept? {
      if 0 < |ev.pkt| <= MAX_PKT_LEN {
        AppendFlattens(s.gw, ev.pkt);
      }
    } else if ev.BatchEnd? && s.gw.pending.Some? {
      ParityKeeps(s.gw, c, r, s.gw.pending.value, r);
    }
  }

  /** The generations, read one after the other, are exactly the intercepted packets. */
  lemma {:induction false} HistoryIsIntercepted(evs: seq<RsSystem.Event>, c: Codec, r: nat)
    requires Shaped(c, r)
    ensures Flatten(RsSystem.Run(evs, c, r).gw.history) == Intercepted(evs)
    decreases |evs|
  {
    if |evs| == 0 {
      FlattenLast<Packet>([], []);
    } else {
      var before, ev := evs[..|evs| - 1], evs[|evs| - 1];
      HistoryIsIntercepted(before, c, r);
      StepFlattens(RsSystem.Run(before, c, r), ev, c, r);
    }
  }

  /** A generation ends because it is full, or because the next packet has another length. */
  ghost predicate Maximal(gw: Gateway)
    requires HistoryOk(gw)
  {
    && (forall s {:trigger gw.history[s]} :: 0 < s < gw.serial ==>
          |gw.history[s]| == K || |gw.history[s][0]| != |gw.history[s + 1][0]|)
    && (gw.serial > 0 && gw.cur == [] ==> |gw.history[gw.serial]| == K)
  }

  lemma AppendIsMaximal(gw: Gateway, pkt: Packet)
    requires HistoryOk(gw) && |gw.cur| < K && 0 < |pkt| <= MAX_PKT_LEN && Maximal(gw)
    ensures HistoryOk(Append(gw, pkt)) && Maximal(Append(gw, pkt))
  {
    AppendKeepsHistory(gw, pkt);
    var g := Append(gw, pkt);
    forall s {:trigger g.history[s]} | 0 < s < g.serial
      ensures |g.history[s]| == K || |g.history[s][0]| != |g.history[s + 1][0]|
    {
      assert g.history[s] == gw.history[s];
      if s < gw.serial {
        assert g.history[s + 1][0] == gw.history[s + 1][0];
      }
    }
  }

  lemma StepIsMaximal(s: RsSystem.System, ev: RsSystem.Event, c: Codec, r: nat)
    requires Inv(s.gw, c, r) && RsSystem.ChannelInv(s) && Maximal(s.gw)
    ensures HistoryOk(RsSystem.Step(s, ev, c, r).gw) && Maximal(RsSystem.Step(s, ev, c, r).gw)
  {
    RsSystem.StepKeeps(s, ev, c, r);
    if ev.Intercept? && 0 < |ev.pkt| <= MAX_PKT_LEN {
      PacketIsMaximal(s.gw, ev.pkt, OnPacket(s.gw, ev.pkt));
    } else if ev.BatchEnd? && s.gw.pending.Some? {
      ParityKeeps(s.gw, c, r, s.gw.pending.value, r);
    }
  }

  lemma PacketIsMaximal(gw: Gateway, pkt: Packet, g: Gateway)
    requires HistoryOk(gw) && |gw.cur| < K && 0 < |pkt| <= MAX_PKT_LEN && Maximal(gw)
    requires g == OnPacket(gw, pkt) && HistoryOk(g)
    ensures Maximal(g)
  {
    AppendKeepsHistory(gw, pkt);
    AppendIsMaximal(gw, pkt);
  }

  /** Over every run of the host. */
  lemma {:induction false} GenerationsAreMaximal(evs: seq<RsSystem.Event>, c: Codec, r: nat)
    requires Shaped(c, r)
    ensures Maximal(RsSystem.Run(evs, c, r).gw)
    decreases |evs|
  {
    if |evs| == 0 {
    } else {
      GenerationsAreMaximal(evs[..|evs| - 1], c, r);
      StepIsMaximal(RsSystem.Run(evs[..|evs| - 1], c, r), evs[|evs| - 1], c, r);
    }
  }

  ghost predicate AllRecoverable(s: RsSystem.System, r: nat)
    requires RsSystem.ChannelInv(s) && HistoryOk(s.gw)
  {
    forall serial :: 0 < serial <= s.gw.serial ==> Recoverable(s, r, serial)
  }

  /** Every generation is handed on in full. */
  lemma HistoryIsHandedOn(s: RsSystem.System, trace: seq<Datagram>, e: Env)
    requires EnvOk(e) && Inv(s.gw, e.codec, e.r) && RsSystem.ChannelInv(s) && AllIp(s.gw)
    requires e.r != 1 && Correct(e.codec, e.r) && Carries(trace, Items(s)) && AllRecoverable(s, e.r)
    requires AllWellformed(trace)
    ensures AllHandedOn(ReceiveIdeal(trace, e).log, s.gw.history, s.gw.serial)
  {
    forall serial | 0 < serial <= s.gw.serial
      ensures HandedOn(Of(ReceiveIdeal(trace, e).log, serial), s.gw.history[serial])
    {
      GenerationIsHandedOn(s, serial, trace, e);
    }
  }

  lemma LogIsTagged(s: RsSystem.System, trace: seq<Datagram>, e: Env)
    requires EnvOk(e) && Inv(s.gw, e.codec, e.r) && RsSystem.ChannelInv(s) && AllIp(s.gw)
    requires Carries(trace, Items(s)) && AllWellformed(trace)
    ensures TagsWithin(ReceiveIdeal(trace, e).log, s.gw.serial)
  {
    var log := ReceiveIdeal(trace, e).log;
    forall k | 0 <= k < |log|
      ensures 0 < log[k].0 <= s.gw.serial
    {
      TagsAreSerials(s, trace, e, k);
    }
  }

  lemma IdealHandsOnHistory(s: RsSystem.System, trace: seq<Datagram>, e: Env)
    requires EnvOk(e) && Inv(s.gw, e.codec, e.r) && RsSystem.ChannelInv(s) && AllIp(s.gw)
    requires e.r != 1 && Correct(e.codec, e.r) && Carries(trace, Items(s)) && AllRecoverable(s, e.r)
    requires AllWellformed(trace)
    ensures multiset(PacketsOf(Untag(ReceiveIdeal(trace, e).log))) == multiset(Flatten(s.gw.history))
  {
    HistoryIsHandedOn(s, trace, e);
    LogIsTagged(s, trace, e);
    LogIsHistory(ReceiveIdeal(trace, e).log, s.gw.history, s.gw.serial);
  }

  lemma ArrivalsAreWellformed(s: RsSystem.System, trace: seq<Datagram>, e: Env)
    requires EnvOk(e) && Inv(s.gw, e.codec, e.r) && RsSystem.ChannelInv(s) && AllIp(s.gw) && Carries(trace, Items(s))
    ensures AllWellformed(trace)
  {
    ItemsAreGenuine(s, e.codec, e.r);
    forall k | 0 <= k < |trace|
      ensures Wellformed(trace[k])
    {
      GenuineIsWellformed(s.gw, e.codec, e.r, Items(s)[k], trace[k]);
    }
  }

  /** The whole pipeline: in every run in which each generation is recoverable, for any socket verdicts and clock, and
      as long as generations sharing one of the 256 slots do not interleave, the receiver hands on exactly the
      intercepted packets, each exactly once, byte-identical. */
  lemma EverythingIsHandedOn(evs: seq<RsSystem.Event>, trace: seq<Datagram>, e: Env)
    requires EnvOk(e) && e.r != 1 && Correct(e.codec, e.r)
    requires AllIp(RsSystem.Run(evs, e.codec, e.r).gw) && AllRecoverable(RsSystem.Run(evs, e.codec, e.r), e.r)
    requires Carries(trace, Items(RsSystem.Run(evs, e.codec, e.r))) && Orderly(trace)
    ensures AllWellformed(trace)
    ensures multiset(PacketsOf(Receive(trace, e).log)) == multiset(Intercepted(evs))
  {
    ArrivalsAreWellformed(RsSystem.Run(evs, e.codec, e.r), trace, e);
    IdealHandsOnHistory(RsSystem.Run(evs, e.codec, e.r), trace, e);
    HistoryIsIntercepted(evs, e.codec, e.r);
    TableRefinesMap(trace, e);
  }
}
