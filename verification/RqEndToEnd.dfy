/** RaptorQ from sequence numbers to the summary. */
module RqEndToEnd {
  import opened Bags
  import opened Base
  import opened Deliveries
  import opened RqTable
  import opened RqComposition
  import opened RqPipeline
  import opened EndToEnd
  import Destination
  import Pacer
  import RqCodec
  import RqGateway
  import RqBlock

  lemma NumberedIsIp(evs: seq<Event>, c: RqCodec.Codec, g: RqGateway.Config, seed: nat, run: nat)
    requires RqGateway.ValidConfig(g) && RqCodec.Systematic(c) && Fair(evs, g)
    requires Numbered(Intercepted(evs, c, g, seed), run)
    ensures IpRun(Host(evs, c, g, seed), c, g)
  {
    var gw := Host(evs, c, g, seed);
    HistoryIsIntercepted(evs, c, g, seed);
    forall s | 0 < s <= gw.serial && |gw.history[s].packets| > 0
      ensures gw.history[s].len >= MIN_IP
    {
      assert RqGateway.RecordOk(gw.history[s], g);
      GenerationIsPartOfHistory(PacketsIn(gw.history), s);
      var pkts := Intercepted(evs, c, g, seed);
      var k :| 0 <= k < |pkts| && pkts[k] == gw.history[s].packets[0];
    }
  }

  /** End to end with RaptorQ. A paced run is intercepted; the two paths lose, repeat and reorder symbols; enough of
      each full block and everything of the others arrives; no symbol of a finished block lands again; slots and ids are
      not shared; the raw socket refuses nothing and the last hop loses nothing. Then the destination, told to expect
      as many packets as were sent, has each exactly once. */
  lemma EverythingArrives(sends: seq<Pacer.Send>, start: nat, period: nat, frames: seq<Frame>, run: nat,
                          evs: seq<Event>, g: RqGateway.Config, seed: nat, trace: seq<Datagram>, e: RqBlock.Env)
    requires RqGateway.ValidConfig(g) && Agreed(e, g) && Fair(evs, g)
    requires Pacer.Paced(sends, start, period) && |sends| > 0
    requires Generated(Intercepted(evs, e.codec, g, seed), sends, frames, run)
    requires FromHost(trace, Host(evs, e.codec, g, seed))
    requires AllRecoverable(Host(evs, e.codec, g, seed), trace, e.codec)
    ensures var src := SourcesOf(Host(evs, e.codec, g, seed));
      && Setting(src, e) && Genuine(trace, src, e.codec)
      && (Orderly(trace, src, e) ==>
            && Accepted(Inputs(trace), e)
            && CompleteView(Destination.Watch(Contents(TakenFrom(Receive(Inputs(trace), e).log))), run, |sends|))
  {
    var pkts := Intercepted(evs, e.codec, g, seed);
    GeneratedIsNumbered(pkts, sends, frames, run, start, period);
    NumberedIsIp(evs, e.codec, g, seed, run);
    EverythingIsHandedOn(evs, g, seed, trace, e);
    if Orderly(trace, SourcesOf(Host(evs, e.codec, g, seed)), e) {
      var log := Receive(Inputs(trace), e).log;
      AllTaken(log);
      PermutationIsComplete(PacketsOf(log), pkts, run);
    }
  }
}
