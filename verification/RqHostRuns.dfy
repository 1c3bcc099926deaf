/** What the RaptorQ host makes of its packets. */
module RqHostRuns {
  import opened Base
  import opened Wire
  import opened RqGateway
  import opened RqPipeline
  import Decision
  import RqCodec

  // Everything here is about runs of the host: which blocks it makes of the packets, and what it sends of them.

  predicate Full(rec: Record) {
    rec.k > 0 && |rec.packets| == rec.k
  }

  // ----- one step

  lemma {:induction false} RepairsOnlyAddIds(gw: Gateway, n: nat, l: Luck, c: RqCodec.Codec)
    requires |gw.history| == gw.serial + 1
    ensures var g := SendRepairs(gw, n, l, c); var rec := gw.history[gw.serial];
      g.history == gw.history[gw.serial := rec.(esis := g.history[g.serial].esis)] && g.isOpen == gw.isOpen
      && g.completed == gw.completed
  {
    if n == 0 {
    } else {
      RepairsOnlyAddIds(gw, n - 1, l, c);
    }
  }

  /** What finishing leaves of the records. */
  lemma FinishMarks(gw: Gateway, l: Luck, c: RqCodec.Codec)
    requires |gw.history| == gw.serial + 1
    ensures var g, rec := Finish(gw, l, c), gw.history[gw.serial]; var rec' := g.history[g.serial];
      && g.serial == gw.serial && (forall s :: 0 <= s < gw.serial ==> g.history[s] == gw.history[s])
      && rec'.planned == rec.planned && rec'.packets == rec.packets && rec'.k == rec.k && rec'.len == rec.len
      && (|rec.packets| == rec.k ==>
            rec'.encoded == l.encodeOk && !g.isOpen && g.completed == gw.completed + 1)
      && (|rec.packets| != rec.k ==> g == gw)
  {
    RepairsOnlyAddIds(Marked(gw, l.encodeOk), gw.repairs, l, c);
  }

  /** From one state to the next: the planned repairs are fixed when a block is opened, the outcome of the encoding when
      it is filled, and a full block never changes again. */
  ghost predicate Follows(gw: Gateway, ev: Event, gw': Gateway)
    requires |gw.history| == gw.serial + 1 && |gw'.history| == gw'.serial + 1
  {
    && gw.serial <= gw'.serial <= gw.serial + 1
    && (forall s :: 0 <= s <= gw.serial ==> gw'.history[s].planned == gw.history[s].planned)
    && (forall s :: 0 <= s <= gw.serial && Full(gw.history[s]) ==> gw'.history[s] == gw.history[s])
    && (gw'.serial > gw.serial ==> gw'.history[gw'.serial].planned == Decision.DecideRepairs(gw.engine))
    && (forall s :: 0 < s <= gw'.serial && Fills(gw, gw', s) ==>
          ev.Intercept? && gw'.history[s].encoded == ev.luck.encodeOk)
  }

  /** Block s is opened in this step. */
  predicate Opens(gw: Gateway, gw': Gateway, s: nat) {
    gw.serial < s <= gw'.serial
  }

  /** Block s becomes full in this step. */
  predicate Fills(gw: Gateway, gw': Gateway, s: nat)
    requires |gw.history| == gw.serial + 1 && |gw'.history| == gw'.serial + 1
  {
    s <= gw'.serial && Full(gw'.history[s]) && !(s <= gw.serial && Full(gw.history[s]))
  }

  /** A packet joins the open block. */
  lemma TakingFollows(gw: Gateway, pkt: Packet, l: Luck, c: RqCodec.Codec)
    requires |gw.history| == gw.serial + 1 && Filling(gw.history[gw.serial])
    ensures var g := Finish(AddPacket(gw, pkt), l, c); var rec, rec' := gw.history[gw.serial], g.history[gw.serial];
      && g.serial == gw.serial && (forall s :: 0 <= s < gw.serial ==> g.history[s] == gw.history[s])
      && rec'.k == rec.k && rec'.len == rec.len && rec'.planned == rec.planned && rec'.packets == rec.packets + [pkt]
      && (if Full(rec')
          then rec'.encoded == l.encodeOk && !g.isOpen && g.completed == gw.completed + 1
          else g.isOpen == gw.isOpen && g.completed == gw.completed)
  {
    FinishMarks(AddPacket(gw, pkt), l, c);
  }

  /** The block that the packet will join, if there is one. */
  lemma OpeningFollows(gw: Gateway, len: nat, l: Luck, g: Config, gw': Gateway)
    requires |gw.history| == gw.serial + 1 && !gw.isOpen && gw' == OpenBlock(gw, len, l, g)
    ensures gw'.serial == gw.serial + 1 && (forall s :: 0 <= s <= gw.serial ==> gw'.history[s] == gw.history[s])
    ensures gw'.history[gw'.serial] == NewRecord(gw.engine, len, g) && (gw'.isOpen <==> l.dataOk && l.rqOk)
  {
  }

  lemma StepFollows(gw: Gateway, ev: Event, c: RqCodec.Codec, g: Config)
    requires Inv(gw, c, g) && (ev.Intercept? ==> FairLuck(ev.luck, g))
    ensures |Step(gw, ev, c, g).history| == Step(gw, ev, c, g).serial + 1
    ensures Follows(gw, ev, Step(gw, ev, c, g))
  {
    if ev.Intercept? && 0 < |ev.pkt| <= MAX_PKT_LEN {
      PacketFollows(gw, ev, c, g, Step(gw, ev, c, g));
    }
  }

  lemma PacketFollows(gw: Gateway, ev: Event, c: RqCodec.Codec, g: Config, gw': Gateway)
    requires Inv(gw, c, g) && ev.Intercept? && FairLuck(ev.luck, g) && 0 < |ev.pkt| <= MAX_PKT_LEN
    requires gw' == OnPacket(gw, ev.pkt, ev.luck, c, g)
    ensures Follows(gw, ev, gw')
  {
    var g1 := CloseIfOther(gw, |ev.pkt|);
    var g2 := if g1.isOpen then g1 else OpenBlock(g1, |ev.pkt|, ev.luck, g);
    if !g1.isOpen {
      OpeningFollows(g1, |ev.pkt|, ev.luck, g, g2);
      ShapeIsBounded(gw.engine, g);
    }
    assert Readied(gw, g2);
    if g2.isOpen {
      TakingFollows(g2, ev.pkt, ev.luck, c);
      TakenFollows(gw, g2, gw', ev);
    } else {
      NothingTaken(gw, gw', ev);
    }
  }

  /** The host as a packet finds it: with the block that was open, or with a new one. */
  ghost predicate Readied(gw: Gateway, g2: Gateway)
    requires |gw.history| == gw.serial + 1 && |g2.history| == g2.serial + 1
  {
    && gw.serial <= g2.serial <= gw.serial + 1 && (forall s :: 0 <= s <= gw.serial ==> g2.history[s] == gw.history[s])
    && (g2.serial > gw.serial ==>
          g2.history[g2.serial].planned == Decision.DecideRepairs(gw.engine) && !Full(g2.history[g2.serial]))
    && (g2.isOpen ==> !Full(g2.history[g2.serial]))
  }

  lemma NothingTaken(gw: Gateway, gw': Gateway, ev: Event)
    requires |gw.history| == gw.serial + 1 && |gw'.history| == gw'.serial + 1 && Readied(gw, gw')
    ensures Follows(gw, ev, gw')
  {
  }

  lemma TakenFollows(gw: Gateway, g2: Gateway, gw': Gateway, ev: Event)
    requires |gw.history| == gw.serial + 1 && |g2.history| == g2.serial + 1 && |gw'.history| == gw'.serial + 1
    requires Readied(gw, g2) && g2.isOpen && ev.Intercept? && gw'.serial == g2.serial
    requires forall s :: 0 <= s < g2.serial ==> gw'.history[s] == g2.history[s]
    requires gw'.history[g2.serial].planned == g2.history[g2.serial].planned
    requires Full(gw'.history[g2.serial]) ==> gw'.history[g2.serial].encoded == ev.luck.encodeOk
    ensures Follows(gw, ev, gw')
  {
  }

  // ----- whole runs

  /** Block s is opened by event m. */
  ghost predicate OpenedAt(evs: seq<Event>, m: nat, s: nat, c: RqCodec.Codec, g: Config, seed: nat)
    requires ValidConfig(g) && RqCodec.Systematic(c) && Fair(evs, g)
  {
    m < |evs| && Opens(Host(evs[..m], c, g, seed), Host(evs[..m + 1], c, g, seed), s)
  }

  /** Block s becomes full with event n. */
  ghost predicate FilledAt(evs: seq<Event>, n: nat, s: nat, c: RqCodec.Codec, g: Config, seed: nat)
    requires ValidConfig(g) && RqCodec.Systematic(c) && Fair(evs, g)
  {
    n < |evs| && s > 0 && Fills(Host(evs[..n], c, g, seed), Host(evs[..n + 1], c, g, seed), s)
  }

  lemma RunFollows(evs: seq<Event>, n: nat, c: RqCodec.Codec, g: Config, seed: nat)
    requires ValidConfig(g) && RqCodec.Systematic(c) && Fair(evs, g) && n < |evs|
    ensures Follows(Host(evs[..n], c, g, seed), evs[n], Host(evs[..n + 1], c, g, seed))
  {
    assert evs[..n + 1][..n] == evs[..n];
    StepFollows(Host(evs[..n], c, g, seed), evs[n], c, g);
  }

  /** What a later state still says about a block. */
  lemma {:induction false} RecordsLast(evs: seq<Event>, n: nat, s: nat, c: RqCodec.Codec, g: Config, seed: nat)
    requires ValidConfig(g) && RqCodec.Systematic(c) && Fair(evs, g) && n <= |evs|
    requires s <= Host(evs[..n], c, g, seed).serial
    ensures var gw, gw' := Host(evs[..n], c, g, seed), Host(evs, c, g, seed);
      && s <= gw'.serial && gw'.history[s].planned == gw.history[s].planned
      && (Full(gw.history[s]) ==> gw'.history[s] == gw.history[s])
    decreases |evs| - n
  {
    if n == |evs| {
      assert evs[..n] == evs;
    } else {
      RunFollows(evs, n, c, g, seed);
      RecordsLast(evs, n + 1, s, c, g, seed);
    }
  }

  lemma SamePrefixes(evs: seq<Event>, k: nat, n: nat)
    requires n < k <= |evs|
    ensures evs[..k][..n] == evs[..n] && evs[..k][..n + 1] == evs[..n + 1]
  {
  }

  /** Every block was opened in some step. */
  lemma {:induction false} OpenedSomewhere(evs: seq<Event>, s: nat, c: RqCodec.Codec, g: Config, seed: nat)
      returns (m: nat)
    requires ValidConfig(g) && RqCodec.Systematic(c) && Fair(evs, g) && 0 < s <= Host(evs, c, g, seed).serial
    ensures OpenedAt(evs, m, s, c, g, seed)
    decreases |evs|
  {
    var n := |evs| - 1;
    assert evs[..n + 1] == evs;
    if Host(evs[..n], c, g, seed).serial < s {
      m := n;
    } else {
      m := OpenedSomewhere(evs[..n], s, c, g, seed);
      SamePrefixes(evs, n, m);
    }
  }

  /** Every full block was filled in some step. */
  lemma {:induction false} FilledSomewhere(evs: seq<Event>, s: nat, c: RqCodec.Codec, g: Config, seed: nat)
      returns (n: nat)
    requires ValidConfig(g) && RqCodec.Systematic(c) && Fair(evs, g) && 0 < s <= Host(evs, c, g, seed).serial
    requires Full(Host(evs, c, g, seed).history[s])
    ensures FilledAt(evs, n, s, c, g, seed)
    decreases |evs|
  {
    var k := |evs| - 1;
    assert evs[..k + 1] == evs;
    var gw := Host(evs[..k], c, g, seed);
    if s <= gw.serial && Full(gw.history[s]) {
      n := FilledSomewhere(evs[..k], s, c, g, seed);
      SamePrefixes(evs, k, n);
    } else {
      n := k;
    }
  }

  // ----- what is in the log

  lemma {:induction false} SourcesAt(s: nat, k: nat, len: nat, packets: seq<Packet>, i: nat)
    requires i < |packets|
    ensures Sources(s, k, len, packets)[i] == SourceSymbol(s, k, len, i, packets[i])
    decreases |packets|
  {
    if i < |packets| - 1 {
      SourcesAt(s, k, len, packets[..|packets| - 1], i);
    } else {
    }
  }

  lemma {:induction false} RepairsAt(c: RqCodec.Codec, s: nat, k: nat, len: nat, src: seq<Packet>, esis: seq<nat>,
                                     j: nat)
    requires j < |esis|
    ensures Repairs(c, s, k, len, src, esis)[j] == RepairSymbol(c, s, k, len, src, esis[j])
    decreases |esis|
  {
    if j < |esis| - 1 {
      RepairsAt(c, s, k, len, src, esis[..|esis| - 1], j);
    } else {
    }
  }

  /** Of block s exactly these symbols have been sent, in this order: its packets as source symbols 0, 1, ..., and then
      n repair symbols made of all of them. */
  ghost predicate SentWith(gw: Gateway, c: RqCodec.Codec, s: nat, n: nat)
    requires |gw.history| == gw.serial + 1 && s <= gw.serial
  {
    var rec, syms := gw.history[s], LogOf(gw.log, s);
    && |syms| == |rec.packets| + n
    && (forall i :: 0 <= i < |rec.packets| ==> syms[i] == SourceSymbol(s, rec.k, rec.len, i, rec.packets[i]))
    && (forall j :: |rec.packets| <= j < |syms| ==>
          rec.k <= syms[j].esi && syms[j] == RepairSymbol(c, s, rec.k, rec.len, rec.packets, syms[j].esi))
  }

  lemma LogIsSent(gw: Gateway, c: RqCodec.Codec, g: Config, s: nat)
    requires Inv(gw, c, g) && 0 < s <= gw.serial
    ensures SentWith(gw, c, s, |gw.history[s].esis|)
  {
    ExpectedAt(c, g, s, gw.history[s], LogOf(gw.log, s));
  }

  lemma ExpectedAt(c: RqCodec.Codec, g: Config, s: nat, rec: Record, syms: seq<Symbol>)
    requires RecordOk(rec, g) && syms == Expected(c, s, rec)
    ensures |syms| == |rec.packets| + |rec.esis|
    ensures forall i :: 0 <= i < |rec.packets| ==> syms[i] == SourceSymbol(s, rec.k, rec.len, i, rec.packets[i])
    ensures forall j :: |rec.packets| <= j < |syms| ==>
              rec.k <= syms[j].esi && syms[j] == RepairSymbol(c, s, rec.k, rec.len, rec.packets, syms[j].esi)
  {
    forall i | 0 <= i < |rec.packets|
      ensures syms[i] == SourceSymbol(s, rec.k, rec.len, i, rec.packets[i])
    {
      SourcesAt(s, rec.k, rec.len, rec.packets, i);
    }
    forall j | |rec.packets| <= j < |syms|
      ensures rec.k <= syms[j].esi && syms[j] == RepairSymbol(c, s, rec.k, rec.len, rec.packets, syms[j].esi)
    {
      RepairsAt(c, s, rec.k, rec.len, rec.packets, rec.esis, j - |rec.packets|);
    }
  }

  lemma OpenedPlan(evs: seq<Event>, m: nat, s: nat, c: RqCodec.Codec, g: Config, seed: nat)
    requires ValidConfig(g) && RqCodec.Systematic(c) && Fair(evs, g) && OpenedAt(evs, m, s, c, g, seed)
    ensures var gw := Host(evs, c, g, seed);
      s <= gw.serial && gw.history[s].planned == Decision.DecideRepairs(Host(evs[..m], c, g, seed).engine)
  {
    RunFollows(evs, m, c, g, seed);
    NewIsPlanned(Host(evs[..m], c, g, seed), evs[m], Host(evs[..m + 1], c, g, seed), s);
    RecordsLast(evs, m + 1, s, c, g, seed);
  }

  lemma NewIsPlanned(gw: Gateway, ev: Event, gw': Gateway, s: nat)
    requires |gw.history| == gw.serial + 1 && |gw'.history| == gw'.serial + 1
    requires Follows(gw, ev, gw') && Opens(gw, gw', s)
    ensures gw'.history[s].planned == Decision.DecideRepairs(gw.engine)
  {
  }

  lemma FilledOutcome(evs: seq<Event>, n: nat, s: nat, c: RqCodec.Codec, g: Config, seed: nat)
    requires ValidConfig(g) && RqCodec.Systematic(c) && Fair(evs, g) && FilledAt(evs, n, s, c, g, seed)
    ensures var gw := Host(evs, c, g, seed);
      evs[n].Intercept? && s <= gw.serial && Full(gw.history[s]) && gw.history[s].encoded == evs[n].luck.encodeOk
  {
    RunFollows(evs, n, c, g, seed);
    RecordsLast(evs, n + 1, s, c, g, seed);
  }

  lemma FullIsProtected(gw: Gateway, c: RqCodec.Codec, g: Config, s: nat)
    requires Inv(gw, c, g) && 0 < s <= gw.serial && Full(gw.history[s])
    ensures SentWith(gw, c, s, if gw.history[s].encoded then gw.history[s].planned else 0)
  {
    LogIsSent(gw, c, g, s);
    assert Protected(gw.history[s]);
  }

  /** Over every run of the host: a block that becomes full in step n, having been opened in step m, has k source
      symbols in the log, and behind them as many repair symbols as the engine decided when the block was opened if the
      encoding succeeded in step n, and none otherwise. */
  lemma RepairsAreAsDecided(evs: seq<Event>, m: nat, n: nat, s: nat, c: RqCodec.Codec, g: Config, seed: nat)
    requires ValidConfig(g) && RqCodec.Systematic(c) && Fair(evs, g)
    requires OpenedAt(evs, m, s, c, g, seed) && FilledAt(evs, n, s, c, g, seed)
    ensures evs[n].Intercept? && s <= Host(evs, c, g, seed).serial && Full(Host(evs, c, g, seed).history[s])
    ensures SentWith(Host(evs, c, g, seed), c, s,
                     if evs[n].luck.encodeOk then Decision.DecideRepairs(Host(evs[..m], c, g, seed).engine) else 0)
  {
    OpenedPlan(evs, m, s, c, g, seed);
    FilledOutcome(evs, n, s, c, g, seed);
    FullIsProtected(Host(evs, c, g, seed), c, g, s);
  }

  /** A block that never became full has no repair symbols. */
  lemma PartialBlocksHaveNone(evs: seq<Event>, s: nat, c: RqCodec.Codec, g: Config, seed: nat)
    requires ValidConfig(g) && RqCodec.Systematic(c) && Fair(evs, g) && 0 < s <= Host(evs, c, g, seed).serial
    requires !Full(Host(evs, c, g, seed).history[s])
    ensures SentWith(Host(evs, c, g, seed), c, s, 0)
  {
    LogIsSent(Host(evs, c, g, seed), c, g, s);
    assert RecordOk(Host(evs, c, g, seed).history[s], g) && Protected(Host(evs, c, g, seed).history[s]);
  }

  /** With the default policy every full block whose encoding succeeded has exactly the configured repair symbols. */
  lemma DefaultPolicyProtects(evs: seq<Event>, n: nat, s: nat, c: RqCodec.Codec, g: Config, seed: nat)
    requires ValidConfig(g) && RqCodec.Systematic(c) && Fair(evs, g) && g.policy.DefaultPolicy?
    requires FilledAt(evs, n, s, c, g, seed)
    ensures evs[n].Intercept? && s <= Host(evs, c, g, seed).serial
    ensures SentWith(Host(evs, c, g, seed), c, s, if evs[n].luck.encodeOk then g.repairs else 0)
  {
    FilledOutcome(evs, n, s, c, g, seed);
    var m := OpenedSomewhere(evs, s, c, g, seed);
    RepairsAreAsDecided(evs, m, n, s, c, g, seed);
  }

  // ----- how packets become blocks

  /** A block ends because it is full, because the next packet has another length, or because there was no memory for
      it. */
  ghost predicate Maximal(gw: Gateway)
    requires |gw.history| == gw.serial + 1
  {
    && (forall s {:trigger gw.history[s]} :: 0 < s < gw.serial ==>
          Full(gw.history[s]) || gw.history[s].packets == [] || gw.history[s].len != gw.history[s + 1].len)
    && (gw.serial > 0 && !gw.isOpen ==> Full(gw.history[gw.serial]) || gw.history[gw.serial].packets == [])
  }

  lemma OpeningIsMaximal(gw: Gateway, len: nat, l: Luck, g: Config)
    requires |gw.history| == gw.serial + 1 && Maximal(gw) && (gw.isOpen ==> gw.serial > 0)
    ensures var g1 := CloseIfOther(gw, len);
      var g2 := if g1.isOpen then g1 else OpenBlock(g1, len, l, g);
      Maximal(g2) && g2.history[g2.serial].len == len
  {
    var g1 := CloseIfOther(gw, len);
    if !g1.isOpen {
      OpeningFollows(g1, len, l, g, OpenBlock(g1, len, l, g));
    }
  }

  lemma TakingIsMaximal(gw: Gateway, pkt: Packet, l: Luck, c: RqCodec.Codec)
    requires |gw.history| == gw.serial + 1 && Maximal(gw) && gw.isOpen && Filling(gw.history[gw.serial])
    ensures Maximal(Finish(AddPacket(gw, pkt), l, c))
  {
    TakingFollows(gw, pkt, l, c);
  }

  lemma StepIsMaximal(gw: Gateway, ev: Event, c: RqCodec.Codec, g: Config)
    requires Inv(gw, c, g) && (ev.Intercept? ==> FairLuck(ev.luck, g)) && Maximal(gw)
    ensures Maximal(Step(gw, ev, c, g))
  {
    if ev.Intercept? && 0 < |ev.pkt| <= MAX_PKT_LEN {
      OpeningIsMaximal(gw, |ev.pkt|, ev.luck, g);
      var g1 := CloseIfOther(gw, |ev.pkt|);
      ShapeIsBounded(gw.engine, g);
      var g2 := if g1.isOpen then g1 else OpenBlock(g1, |ev.pkt|, ev.luck, g);
      if g2.isOpen {
        TakingIsMaximal(g2, ev.pkt, ev.luck, c);
      }
    }
  }

  /** Over every run of the host. */
  lemma {:induction false} BlocksAreMaximal(evs: seq<Event>, c: RqCodec.Codec, g: Config, seed: nat)
    requires ValidConfig(g) && RqCodec.Systematic(c) && Fair(evs, g)
    ensures Maximal(Host(evs, c, g, seed))
    decreases |evs|
  {
    if |evs| == 0 {
    } else {
      BlocksAreMaximal(evs[..|evs| - 1], c, g, seed);
      StepIsMaximal(Host(evs[..|evs| - 1], c, g, seed), evs[|evs| - 1], c, g);
    }
  }

  /** The host after some more events. */
  ghost function Feed(gw: Gateway, evs: seq<Event>, c: RqCodec.Codec, g: Config): (gw': Gateway)
    requires Inv(gw, c, g) && Fair(evs, g)
    ensures Inv(gw', c, g)
    decreases |evs|
  {
    if |evs| == 0 then gw
    else
      var before, ev := Feed(gw, evs[..|evs| - 1], c, g), evs[|evs| - 1];
      StepKeepsInv(before, ev, c, g);
      Step(before, ev, c, g)
  }

  ghost predicate OneLengthOnly(evs: seq<Event>, len: nat) {
    forall n :: 0 <= n < |evs| ==> evs[n].Intercept? && |evs[n].pkt| == len
  }

  function Packets(evs: seq<Event>): seq<Packet>
    requires forall n :: 0 <= n < |evs| ==> evs[n].Intercept?
  {
    seq(|evs|, n requires 0 <= n < |evs| => evs[n].pkt)
  }

  /** One block more than before, with these packets; it is open unless it is full. */
  ghost predicate OneBlockMore(gw: Gateway, gw': Gateway, packets: seq<Packet>, len: nat, g: Config)
    requires |gw'.history| == gw'.serial + 1
  {
    var rec := gw'.history[gw'.serial];
    && gw'.serial == gw.serial + 1 && rec.packets == packets && rec.k == g.blockSize && rec.len == len
    && (if |packets| == g.blockSize then !gw'.isOpen && gw'.completed == gw.completed + 1
        else gw'.isOpen && gw'.completed == gw.completed)
  }

  lemma FirstOfBlock(gw: Gateway, ev: Event, c: RqCodec.Codec, g: Config)
    requires Inv(gw, c, g) && !gw.isOpen && ev.Intercept? && 0 < |ev.pkt| <= MAX_PKT_LEN
    requires ev.luck.dataOk && ev.luck.rqOk
    ensures |Step(gw, ev, c, g).history| == Step(gw, ev, c, g).serial + 1
    ensures OneBlockMore(gw, Step(gw, ev, c, g), [ev.pkt], |ev.pkt|, g)
  {
    ShapeIsBounded(gw.engine, g);
    var g2 := OpenBlock(gw, |ev.pkt|, ev.luck, g);
    OpeningFollows(gw, |ev.pkt|, ev.luck, g, g2);
    TakingFollows(g2, ev.pkt, ev.luck, c);
  }

  lemma NextOfBlock(gw: Gateway, gw1: Gateway, packets: seq<Packet>, ev: Event, c: RqCodec.Codec, g: Config)
    requires Inv(gw1, c, g) && ev.Intercept? && 0 < |ev.pkt| <= MAX_PKT_LEN && |packets| < g.blockSize
    requires OneBlockMore(gw, gw1, packets, |ev.pkt|, g)
    ensures |Step(gw1, ev, c, g).history| == Step(gw1, ev, c, g).serial + 1
    ensures OneBlockMore(gw, Step(gw1, ev, c, g), packets + [ev.pkt], |ev.pkt|, g)
  {
    TakingFollows(gw1, ev.pkt, ev.luck, c);
  }

  lemma PacketsSplit(evs: seq<Event>)
    requires |evs| > 0 && forall n :: 0 <= n < |evs| ==> evs[n].Intercept?
    ensures Packets(evs) == Packets(evs[..|evs| - 1]) + [evs[|evs| - 1].pkt]
    ensures |evs| == 1 ==> Packets(evs) == [evs[0].pkt]
  {
  }

  /** From an idle host, packets of one length go into one block: after k of them it is full, and the host is idle
      again. */
  lemma {:induction false} IdleHostFillsOneBlock(gw: Gateway, evs: seq<Event>, len: nat, c: RqCodec.Codec, g: Config)
      returns (gw': Gateway)
    requires Inv(gw, c, g) && Fair(evs, g) && !gw.isOpen && 0 < len <= MAX_PKT_LEN
    requires OneLengthOnly(evs, len) && 0 < |evs| <= g.blockSize && evs[0].luck.dataOk && evs[0].luck.rqOk
    ensures gw' == Feed(gw, evs, c, g) && |gw'.history| == gw'.serial + 1
    ensures OneBlockMore(gw, gw', Packets(evs), len, g)
    decreases |evs|
  {
    var before, ev := evs[..|evs| - 1], evs[|evs| - 1];
    PacketsSplit(evs);
    if |before| == 0 {
      FirstOfBlock(gw, ev, c, g);
      gw' := Step(gw, ev, c, g);
    } else {
      var gw1 := IdleHostFillsOneBlock(gw, before, len, c, g);
      NextOfBlock(gw, gw1, Packets(before), ev, c, g);
      gw' := Step(gw1, ev, c, g);
    }
  }

  // ----- which paths the symbols take

  function EngineAfterPicks(e: Decision.Engine, n: nat): Decision.Engine {
    if n == 0 then e else Decision.AfterPick(EngineAfterPicks(e, n - 1))
  }

  /** Every symbol sent since took the path that the engine chose for it, one choice a symbol and in order. */
  ghost predicate Routed(gw: Gateway, gw': Gateway) {
    && gw.log <= gw'.log && gw'.engine == EngineAfterPicks(gw.engine, |gw'.log| - |gw.log|)
    && forall k :: |gw.log| <= k < |gw'.log| ==>
         gw'.log[k].path == Decision.Pick(EngineAfterPicks(gw.engine, k - |gw.log|), gw'.log[k].sym.esi)
  }

  lemma EmitRoutes(gw: Gateway, gw1: Gateway, next: Gateway, sym: Symbol)
    requires Routed(gw, gw1) && next.log == gw1.log && next.engine == gw1.engine
    ensures Routed(gw, Emit(next, sym))
  {
  }

  lemma {:induction false} RepairsAreRouted(gw: Gateway, gw1: Gateway, n: nat, l: Luck, c: RqCodec.Codec)
    requires |gw1.history| == gw1.serial + 1 && Routed(gw, gw1)
    ensures Routed(gw, SendRepairs(gw1, n, l, c))
  {
    if n == 0 {
    } else {
      RepairsAreRouted(gw, gw1, n - 1, l, c);
      var g := SendRepairs(gw1, n - 1, l, c);
      var rec := g.history[g.serial];
      EmitRoutes(gw, g, g.(history := g.history[g.serial := rec.(esis := rec.esis + [l.esi(n - 1)])]),
                 RepairSymbol(c, g.serial, rec.k, rec.len, rec.packets, l.esi(n - 1)));
    }
  }

  lemma PacketIsRouted(gw: Gateway, pkt: Packet, l: Luck, c: RqCodec.Codec, g: Config)
    requires |gw.history| == gw.serial + 1
    ensures Routed(gw, OnPacket(gw, pkt, l, c, g))
  {
    if 0 < |pkt| <= MAX_PKT_LEN {
      var g1 := CloseIfOther(gw, |pkt|);
      var g2 := if g1.isOpen then g1 else OpenBlock(g1, |pkt|, l, g);
      if g2.isOpen {
        var rec := g2.history[g2.serial];
        EmitRoutes(gw, g2, g2.(history := g2.history[g2.serial := rec.(packets := rec.packets + [pkt])]),
                   SourceSymbol(g2.serial, rec.k, rec.len, |rec.packets|, pkt));
        var g3 := AddPacket(g2, pkt);
        RepairsAreRouted(gw, Marked(g3, l.encodeOk), g3.repairs, l, c);
      }
    }
  }

  lemma {:induction false} PicksJoin(e: Decision.Engine, m: nat, n: nat)
    ensures EngineAfterPicks(EngineAfterPicks(e, m), n) == EngineAfterPicks(e, m + n)
  {
    if n == 0 {
    } else {
      PicksJoin(e, m, n - 1);
    }
  }

  lemma RoutedJoins(gw: Gateway, gw1: Gateway, gw2: Gateway)
    requires Routed(gw, gw1) && Routed(gw1, gw2)
    ensures Routed(gw, gw2)
  {
    var m := |gw1.log| - |gw.log|;
    PicksJoin(gw.engine, m, |gw2.log| - |gw1.log|);
    forall k | |gw.log| <= k < |gw2.log|
      ensures gw2.log[k].path == Decision.Pick(EngineAfterPicks(gw.engine, k - |gw.log|), gw2.log[k].sym.esi)
    {
      if k < |gw1.log| {
        assert gw2.log[k] == gw1.log[k];
      } else {
        PicksJoin(gw.engine, m, k - |gw1.log|);
      }
    }
  }

  /** Between two reports of metrics, whatever happens: one choice of the engine for every symbol, in order. */
  lemma {:induction false} SymbolsAreRouted(gw: Gateway, evs: seq<Event>, c: RqCodec.Codec, g: Config)
    requires Inv(gw, c, g) && Fair(evs, g) && forall n :: 0 <= n < |evs| ==> evs[n].Intercept?
    ensures Routed(gw, Feed(gw, evs, c, g))
    decreases |evs|
  {
    if |evs| == 0 {
    } else {
      var before, ev := evs[..|evs| - 1], evs[|evs| - 1];
      SymbolsAreRouted(gw, before, c, g);
      PacketIsRouted(Feed(gw, before, c, g), ev.pkt, ev.luck, c, g);
      RoutedJoins(gw, Feed(gw, before, c, g), Feed(gw, evs, c, g));
    }
  }

  ghost predicate OddOnB(log: seq<SentSymbol>) {
    forall k :: 0 <= k < |log| ==> (log[k].path == Decision.PathB <==> log[k].sym.esi % 2 == 1)
  }

  lemma {:induction false} DefaultStays(e: Decision.Engine, n: nat)
    requires e.Default?
    ensures EngineAfterPicks(e, n) == e
  {
    if n == 0 {
    } else {
      DefaultStays(e, n - 1);
    }
  }

  lemma RoutedByDefault(gw: Gateway, gw': Gateway)
    requires Routed(gw, gw') && OddOnB(gw.log) && gw.engine.Default?
    ensures OddOnB(gw'.log)
  {
    forall k | 0 <= k < |gw'.log|
      ensures gw'.log[k].path == Decision.PathB <==> gw'.log[k].sym.esi % 2 == 1
    {
      if k < |gw.log| {
        assert gw'.log[k] == gw.log[k];
      } else {
        DefaultStays(gw.engine, k - |gw.log|);
      }
    }
  }

  /** With the default policy a symbol is on path B if and only if its id is odd, source or repair, in every run. */
  lemma {:induction false} DefaultPathsById(evs: seq<Event>, c: RqCodec.Codec, g: Config, seed: nat)
    requires ValidConfig(g) && RqCodec.Systematic(c) && Fair(evs, g) && g.policy.DefaultPolicy?
    ensures OddOnB(Host(evs, c, g, seed).log)
    decreases |evs|
  {
    if |evs| == 0 {
    } else {
      var before, ev := Host(evs[..|evs| - 1], c, g, seed), evs[|evs| - 1];
      DefaultPathsById(evs[..|evs| - 1], c, g, seed);
      if ev.Intercept? {
        PacketIsRouted(before, ev.pkt, ev.luck, c, g);
        RoutedByDefault(before, Host(evs, c, g, seed));
      }
    }
  }

  // ----- which metrics count

  /** The metrics reported last. */
  function LatestMetrics(evs: seq<Event>): Decision.Metrics {
    if |evs| == 0 then Decision.NO_METRICS
    else if evs[|evs| - 1].Metric? then evs[|evs| - 1].m
    else LatestMetrics(evs[..|evs| - 1])
  }

  ghost predicate Knows(e: Decision.Engine, m: Decision.Metrics) {
    !e.Default? ==> e.metrics == m
  }

  lemma {:induction false} PicksKeepMetrics(e: Decision.Engine, n: nat, m: Decision.Metrics)
    requires Knows(e, m)
    ensures Knows(EngineAfterPicks(e, n), m)
  {
    if n == 0 {
    } else {
      PicksKeepMetrics(e, n - 1, m);
    }
  }

  /** In every run the engine decides by the latest report, and before the first one by metrics that are all zero. */
  lemma {:induction false} EngineKnowsLatest(evs: seq<Event>, c: RqCodec.Codec, g: Config, seed: nat)
    requires ValidConfig(g) && RqCodec.Systematic(c) && Fair(evs, g)
    ensures Knows(Host(evs, c, g, seed).engine, LatestMetrics(evs))
    decreases |evs|
  {
    if |evs| == 0 {
    } else {
      var before, ev := Host(evs[..|evs| - 1], c, g, seed), evs[|evs| - 1];
      EngineKnowsLatest(evs[..|evs| - 1], c, g, seed);
      if ev.Intercept? {
        PacketKeepsMetrics(before, ev.pkt, ev.luck, c, g, LatestMetrics(evs));
      }
    }
  }

  lemma PacketKeepsMetrics(gw: Gateway, pkt: Packet, l: Luck, c: RqCodec.Codec, g: Config, m: Decision.Metrics)
    requires |gw.history| == gw.serial + 1 && Knows(gw.engine, m)
    ensures Knows(OnPacket(gw, pkt, l, c, g).engine, m)
  {
    PacketIsRouted(gw, pkt, l, c, g);
    PicksKeepMetrics(gw.engine, |OnPacket(gw, pkt, l, c, g).log| - |gw.log|, m);
  }
}
