/** All blocks of a run together. */
module RqPipeline {
  import opened Bags
  import opened Base
  import opened Deliveries
  import opened Wire
  import opened RqBlock
  import opened RqBlockLaws
  import opened RqEntry
  import opened RqTable
  import opened RqSafety
  import opened RqAttempts
  import opened RqCompletion
  import opened RqComposition
  import Decision
  import RqCodec
  import RqGateway

  // ----- runs of the host

  /** A packet with what its handling meets, or new link metrics. */
  datatype Event = Intercept(pkt: Packet, luck: RqGateway.Luck) | Metric(m: Decision.Metrics)

  ghost predicate Fair(evs: seq<Event>, g: RqGateway.Config) {
    forall k :: 0 <= k < |evs| && evs[k].Intercept? ==> RqGateway.FairLuck(evs[k].luck, g)
  }

  /** The host after a run. */
  ghost function Host(evs: seq<Event>, c: RqCodec.Codec, g: RqGateway.Config, seed: nat): (gw: RqGateway.Gateway)
    requires RqGateway.ValidConfig(g) && RqCodec.Systematic(c) && Fair(evs, g)
    ensures RqGateway.Inv(gw, c, g)
    decreases |evs|
  {
    if |evs| == 0 then
      RqGateway.InitialInv(seed, c, g);
      RqGateway.Initial(Decision.Configure(g.policy, g.blockSize, g.repairs, seed))
    else
      var gw, ev := Host(evs[..|evs| - 1], c, g, seed), evs[|evs| - 1];
      StepKeepsInv(gw, ev, c, g);
      Step(gw, ev, c, g)
  }

  ghost function Step(gw: RqGateway.Gateway, ev: Event, c: RqCodec.Codec, g: RqGateway.Config): RqGateway.Gateway
    requires |gw.history| == gw.serial + 1
  {
    match ev
    case Intercept(pkt, luck) => RqGateway.OnPacket(gw, pkt, luck, c, g)
    case Metric(m) => RqGateway.OnMetrics(gw, m)
  }

  lemma StepKeepsInv(gw: RqGateway.Gateway, ev: Event, c: RqCodec.Codec, g: RqGateway.Config)
    requires RqGateway.Inv(gw, c, g) && (ev.Intercept? ==> RqGateway.FairLuck(ev.luck, g))
    ensures RqGateway.Inv(Step(gw, ev, c, g), c, g)
  {
    match ev
    case Intercept(pkt, luck) => RqGateway.PacketKeepsInv(gw, pkt, luck, c, g);
    case Metric(m) => RqGateway.MetricsKeepInv(gw, m, c, g);
  }

  /** A packet that the host can take: of an acceptable length, and with an open block of that length or the memory for
      one. */
  predicate Takes(gw: RqGateway.Gateway, pkt: Packet, l: RqGateway.Luck)
    requires |gw.history| == gw.serial + 1
  {
    0 < |pkt| <= MAX_PKT_LEN && (RqGateway.CloseIfOther(gw, |pkt|).isOpen || (l.dataOk && l.rqOk))
  }

  ghost function Gain(gw: RqGateway.Gateway, ev: Event): seq<Packet>
    requires |gw.history| == gw.serial + 1
  {
    if ev.Intercept? && Takes(gw, ev.pkt, ev.luck) then [ev.pkt] else []
  }

  /** The packets that the host takes in a run. */
  ghost function Intercepted(evs: seq<Event>, c: RqCodec.Codec, g: RqGateway.Config, seed: nat): seq<Packet>
    requires RqGateway.ValidConfig(g) && RqCodec.Systematic(c) && Fair(evs, g)
    decreases |evs|
  {
    if |evs| == 0 then []
    else
      var before := evs[..|evs| - 1];
      Intercepted(before, c, g, seed) + Gain(Host(before, c, g, seed), evs[|evs| - 1])
  }

  function PacketsIn(history: seq<RqGateway.Record>): (ps: seq<seq<Packet>>)
    ensures |ps| == |history| && forall s :: 0 <= s < |ps| ==> ps[s] == history[s].packets
  {
    seq(|history|, s requires 0 <= s < |history| => history[s].packets)
  }

  function AllPackets(gw: RqGateway.Gateway): seq<Packet> {
    Flatten(PacketsIn(gw.history))
  }

  lemma LastPackets(history: seq<RqGateway.Record>, rec: RqGateway.Record)
    ensures Flatten(PacketsIn(history + [rec])) == Flatten(PacketsIn(history)) + rec.packets
  {
    assert PacketsIn(history + [rec]) == PacketsIn(history) + [rec.packets];
    FlattenLast(PacketsIn(history), rec.packets);
  }

  /** Exchanging the current record exchanges its packets. */
  lemma CurrentPackets(history: seq<RqGateway.Record>, rec: RqGateway.Record)
    requires |history| > 0
    ensures var n := |history| - 1; var older := Flatten(PacketsIn(history[..n]));
      && Flatten(PacketsIn(history)) == older + history[n].packets
      && Flatten(PacketsIn(history[n := rec])) == older + rec.packets
  {
    var n := |history| - 1;
    assert history == history[..n] + [history[n]] && history[n := rec] == history[..n] + [rec];
    LastPackets(history[..n], history[n]);
    LastPackets(history[..n], rec);
  }

  lemma {:induction false} RepairsAddNoPackets(gw: RqGateway.Gateway, n: nat, l: RqGateway.Luck, c: RqCodec.Codec)
    requires |gw.history| == gw.serial + 1
    ensures AllPackets(RqGateway.SendRepairs(gw, n, l, c)) == AllPackets(gw)
  {
    if n == 0 {
    } else {
      RepairsAddNoPackets(gw, n - 1, l, c);
      var g1 := RqGateway.SendRepairs(gw, n - 1, l, c);
      var rec := g1.history[g1.serial];
      CurrentPackets(g1.history, rec.(esis := rec.esis + [l.esi(n - 1)]));
    }
  }

  lemma FinishAddsNoPackets(gw: RqGateway.Gateway, l: RqGateway.Luck, c: RqCodec.Codec)
    requires |gw.history| == gw.serial + 1
    ensures AllPackets(RqGateway.Finish(gw, l, c)) == AllPackets(gw)
  {
    var rec := gw.history[gw.serial];
    CurrentPackets(gw.history, rec.(encoded := l.encodeOk));
    RepairsAddNoPackets(RqGateway.Marked(gw, l.encodeOk), gw.repairs, l, c);
  }

  lemma AddPacketAddsIt(gw: RqGateway.Gateway, pkt: Packet)
    requires |gw.history| == gw.serial + 1
    ensures AllPackets(RqGateway.AddPacket(gw, pkt)) == AllPackets(gw) + [pkt]
  {
    var rec := gw.history[gw.serial];
    CurrentPackets(gw.history, rec.(packets := rec.packets + [pkt]));
  }

  lemma OpenAddsNoPackets(gw: RqGateway.Gateway, len: nat, l: RqGateway.Luck, g: RqGateway.Config)
    ensures AllPackets(RqGateway.OpenBlock(gw, len, l, g)) == AllPackets(gw)
  {
    LastPackets(gw.history, RqGateway.NewRecord(gw.engine, len, g));
  }

  lemma StepAddsGain(gw: RqGateway.Gateway, ev: Event, c: RqCodec.Codec, g: RqGateway.Config)
    requires |gw.history| == gw.serial + 1
    ensures AllPackets(Step(gw, ev, c, g)) == AllPackets(gw) + Gain(gw, ev)
  {
    if ev.Intercept? && 0 < |ev.pkt| <= MAX_PKT_LEN {
      var g1 := RqGateway.CloseIfOther(gw, |ev.pkt|);
      OpenAddsNoPackets(g1, |ev.pkt|, ev.luck, g);
      var g2 := if g1.isOpen then g1 else RqGateway.OpenBlock(g1, |ev.pkt|, ev.luck, g);
      AddPacketAddsIt(g2, ev.pkt);
      FinishAddsNoPackets(RqGateway.AddPacket(g2, ev.pkt), ev.luck, c);
    }
  }

  /** The blocks, read one after the other, are exactly the packets that the host took. */
  lemma {:induction false} HistoryIsIntercepted(evs: seq<Event>, c: RqCodec.Codec, g: RqGateway.Config, seed: nat)
    requires RqGateway.ValidConfig(g) && RqCodec.Systematic(c) && Fair(evs, g)
    ensures AllPackets(Host(evs, c, g, seed)) == Intercepted(evs, c, g, seed)
    decreases |evs|
  {
    if |evs| == 0 {
      LastPackets([], RqGateway.NO_BLOCK);
    } else {
      var before := evs[..|evs| - 1];
      HistoryIsIntercepted(before, c, g, seed);
      StepAddsGain(Host(before, c, g, seed), evs[|evs| - 1], c, g);
    }
  }

  // ----- what the receiver hands on

  /** Enough of a block arrives: of a full one what the decoder needs, of one closed early all its packets. */
  ghost predicate Recoverable(rec: RqGateway.Record, seen: set<nat>, c: RqCodec.Codec) {
    if |rec.packets| == rec.k then Suffices(c, rec.packets, seen) else AllSources(rec.packets, seen)
  }

  ghost predicate AllRecoverable(gw: RqGateway.Gateway, trace: seq<Datagram>, c: RqCodec.Codec)
    requires |gw.history| == gw.serial + 1
  {
    forall s :: 0 < s <= gw.serial ==> Recoverable(gw.history[s], EsisOf(trace, s), c)
  }

  /** Successful sends of every packet, each once, are the packets handed on. */
  lemma SendsAreHandedOn(outs: seq<Delivery>, packets: seq<Packet>)
    requires NothingRefused(outs) && Right(outs, packets) && Once(outs)
    requires forall j :: 0 <= j < |packets| ==> Sent(outs, j)
    ensures HandedOn(outs, packets)
  {
    forall j | 0 <= j < |packets|
      ensures IsAmong(outs, j)
    {
      assert Sent(outs, j);
      var k :| 0 <= k < |outs| && outs[k].ok && outs[k].index == j;
    }
  }

  /** An unfinished block has sent exactly what its record says has arrived. */
  lemma WaitingHasSent(b: Block, outs: seq<Delivery>, src: seq<Packet>, id: nat, seen: set<nat>, packets: seq<Packet>)
    requires EntrySafe(b, outs, false, src, id) && Holds(b, src, seen) && |packets| <= |src| <= K
    requires AllSources(packets, seen)
    ensures forall j :: 0 <= j < |packets| ==> Sent(outs, j)
  {
    forall j | 0 <= j < |packets|
      ensures Sent(outs, j)
    {
      assert b.forwarded[j];
    }
  }

  /** Nothing arrives of a block that the host has not sent: at most 40 different symbols. */
  lemma FewSymbols(gw: RqGateway.Gateway, src: nat -> seq<Packet>, g: RqGateway.Config, trace: seq<Datagram>, e: Env,
                   s: nat)
    requires FedBy(gw, src, g, trace, e) && 0 < s <= gw.serial
    ensures |EsisOf(trace, s)| <= MAX_SYMBOLS
  {
    assert RqGateway.RecordOk(gw.history[s], g);
    SeenAreUsed(gw, src, g, trace, e, s);
  }

  /** Every packet of the block has been sent: a full block because it is finished, another because it has all. */
  lemma PacketsAreSent(rec: RqGateway.Record, g: RqGateway.Config, id: Ideal, s: nat, src: seq<Packet>, seen: set<nat>,
                       c: RqCodec.Codec)
    requires RqGateway.RecordOk(rec, g) && RqGateway.ValidConfig(g) && src == Padded(rec)
    requires FinishedRightly(id, s, src, seen, c) && Recoverable(rec, seen, c)
    requires EntrySafe(Entry(id.slots, s), Of(id.log, s), s in id.done, src, WireId(s))
    requires BlockDelivered(rec, Of(id.log, s), s in id.done)
    ensures forall j :: 0 <= j < |rec.packets| ==> Sent(Of(id.log, s), j)
  {
    PaddedIsSource(rec, g);
    if s !in id.done {
      WaitingHasSent(Entry(id.slots, s), Of(id.log, s), src, WireId(s), seen, rec.packets);
    }
  }

  /** A block of the host that is recoverable is handed on completely, each packet once. */
  lemma BlockIsHandedOn(gw: RqGateway.Gateway, src: nat -> seq<Packet>, g: RqGateway.Config, trace: seq<Datagram>,
                        e: Env, s: nat)
    requires FedBy(gw, src, g, trace, e) && 0 < s <= gw.serial && SocketTakesAll(trace)
    requires Setting(src, e) && Genuine(trace, src, e.codec) && Quiet(trace, src, e)
    requires Recoverable(gw.history[s], EsisOf(trace, s), e.codec)
    ensures HandedOn(Of(ReceiveIdeal(trace, src, e).log, s), gw.history[s].packets)
  {
    var id, rec := ReceiveIdeal(trace, src, e), gw.history[s];
    assert RqGateway.RecordOk(rec, g);
    PaddedIsSource(rec, g);
    FewSymbols(gw, src, g, trace, e, s);
    BlockIsFinishedIff(trace, s, src, e);
    QuietRunIsSafe(trace, src, e);
    assert EntryIsSafe(id, s, src);
    DeliveredIffQuiet(gw, src, g, trace, e);
    assert BlockDelivered(rec, Of(id.log, s), s in id.done);
    PacketsAreSent(rec, g, id, s, src(s), EsisOf(trace, s), e.codec);
    RunIsTaken(trace, src, e);
    NoneRefusedOf(id.log, s);
    SendsAreHandedOn(Of(id.log, s), rec.packets);
  }

  /** A delivery is made for a block of the host. */
  lemma LogIsTagged(gw: RqGateway.Gateway, src: nat -> seq<Packet>, trace: seq<Datagram>, e: Env)
    requires SourcesAre(src, gw) && Setting(src, e) && Genuine(trace, src, e.codec)
    ensures TagsWithin(ReceiveIdeal(trace, src, e).log, gw.serial)
  {
    var log := ReceiveIdeal(trace, src, e).log;
    forall k | 0 <= k < |log|
      ensures 0 < log[k].0 <= gw.serial
    {
      TagHasDeliveries(log, k);
      if log[k].0 == 0 || log[k].0 > gw.serial {
        NeverArrived(trace, log[k].0, src, e);
      }
    }
  }

  /** The unbounded receiver hands on exactly what the host took. */
  lemma IdealHandsOnHistory(gw: RqGateway.Gateway, src: nat -> seq<Packet>, g: RqGateway.Config, trace: seq<Datagram>,
                            e: Env)
    requires FedBy(gw, src, g, trace, e) && SocketTakesAll(trace) && AllRecoverable(gw, trace, e.codec)
    requires Setting(src, e) && Genuine(trace, src, e.codec) && Quiet(trace, src, e)
    ensures multiset(PacketsOf(Untag(ReceiveIdeal(trace, src, e).log))) == multiset(AllPackets(gw))
  {
    var log, history := ReceiveIdeal(trace, src, e).log, PacketsIn(gw.history);
    forall s | 0 < s <= gw.serial
      ensures HandedOn(Of(log, s), history[s])
    {
      assert Recoverable(gw.history[s], EsisOf(trace, s), e.codec);
      BlockIsHandedOn(gw, src, g, trace, e, s);
    }
    LogIsTagged(gw, src, trace, e);
    LogIsHistory(log, history, gw.serial);
  }

  /** What has to hold of the traffic between host and receiver. */
  ghost predicate Orderly(trace: seq<Datagram>, src: nat -> seq<Packet>, e: Env)
    requires Setting(src, e) && Genuine(trace, src, e.codec)
  {
    && Quiet(trace, src, e) && Separate(trace, src, e) && |ReceiveIdeal(trace, src, e).done| <= MAX_BLOCKS
    && SocketTakesAll(trace)
  }

  /** The whole RaptorQ pipeline: in every run in which enough of each block arrives, the socket refuses nothing, no
      symbol of a finished block lands again and slots and ids are not shared, the receiver hands on exactly the packets
      that the host took, each exactly once, byte-identical. */
  lemma EverythingIsHandedOn(evs: seq<Event>, g: RqGateway.Config, seed: nat, trace: seq<Datagram>, e: Env)
    requires RqGateway.ValidConfig(g) && Agreed(e, g) && Fair(evs, g)
    requires IpRun(Host(evs, e.codec, g, seed), e.codec, g) && FromHost(trace, Host(evs, e.codec, g, seed))
    requires AllRecoverable(Host(evs, e.codec, g, seed), trace, e.codec)
    ensures var src := SourcesOf(Host(evs, e.codec, g, seed));
      && Setting(src, e) && Genuine(trace, src, e.codec)
      && (Orderly(trace, src, e) ==>
            && Accepted(Inputs(trace), e)
            && var log := Receive(Inputs(trace), e).log;
               NothingRefused(log) && multiset(PacketsOf(log)) == multiset(Intercepted(evs, e.codec, g, seed)))
  {
    var gw := Host(evs, e.codec, g, seed);
    var src := SourcesOf(gw);
    PipelineIsSafe(gw, g, trace, e);
    if Orderly(trace, src, e) {
      IdealHandsOnHistory(gw, src, g, trace, e);
      HistoryIsIntercepted(evs, e.codec, g, seed);
      RunIsTaken(trace, src, e);
    }
  }
}
