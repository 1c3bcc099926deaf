/** RaptorQ host and receiver together. */
module RqComposition {
  import opened Base
  import opened Deliveries
  import opened Wire
  import opened RqBlock
  import opened RqBlockLaws
  import opened RqEntry
  import opened RqTable
  import opened RqSafety
  import opened RqAttempts
  import opened RqCompletion
  import RqCodec
  import RqGateway

  // What the host sends keeps the receiver within its buffers, and what the receiver hands on is what the host
  // intercepted.

  // ----- the host's symbols

  /** The source packets of a block; places never filled are padded. */
  function Padded(rec: RqGateway.Record): (src: seq<Packet>)
    requires |rec.packets| <= rec.k
    ensures |src| == rec.k
  {
    rec.packets + Repeat(Repeat<Byte>(0, rec.len), rec.k - |rec.packets|)
  }

  /** `src` gives the source packets of the host's blocks, and nothing for other numbers. */
  ghost predicate SourcesAre(src: nat -> seq<Packet>, gw: RqGateway.Gateway) {
    && |gw.history| == gw.serial + 1
    && (forall s :: 0 < s <= gw.serial ==>
        |gw.history[s].packets| <= gw.history[s].k && src(s) == Padded(gw.history[s]))
    && (forall s :: s == 0 || s > gw.serial ==> src(s) == [])
  }

  function SourcesOf(gw: RqGateway.Gateway): nat -> seq<Packet> {
    (s: nat) =>
      if 0 < s <= gw.serial < |gw.history| && |gw.history[s].packets| <= gw.history[s].k then
        Padded(gw.history[s])
      else []
  }

  /** Every run of the host has such a function. */
  lemma SourcesExist(gw: RqGateway.Gateway, c: RqCodec.Codec, g: RqGateway.Config)
    requires RqGateway.Inv(gw, c, g)
    ensures SourcesAre(SourcesOf(gw), gw)
  {
    forall s | 0 < s <= gw.serial
      ensures |gw.history[s].packets| <= gw.history[s].k
    {
      assert RqGateway.RecordOk(gw.history[s], g);
    }
  }

  /** Only IP packets. */
  ghost predicate IpRun(gw: RqGateway.Gateway, c: RqCodec.Codec, g: RqGateway.Config) {
    && RqGateway.Inv(gw, c, g)
    && forall s :: 0 < s <= gw.serial && |gw.history[s].packets| > 0 ==> gw.history[s].len >= MIN_IP
  }

  /** The receiver has the host's block size and codec. */
  ghost predicate Agreed(e: Env, g: RqGateway.Config) {
    EnvOk(e) && RqCodec.Correct(e.codec) && e.blockSize == g.blockSize
  }

  /** Everything that arrives was sent by the host. */
  ghost predicate FromHost(trace: seq<Datagram>, gw: RqGateway.Gateway) {
    forall k :: 0 <= k < |trace| ==> WasSent(gw.log, trace[k].serial, trace[k].sym)
  }

  ghost predicate WasSent(log: seq<RqGateway.SentSymbol>, s: nat, sym: Symbol) {
    exists n :: 0 <= n < |log| && log[n].serial == s && log[n].sym == sym
  }

  lemma {:induction false} SentIsListed(log: seq<RqGateway.SentSymbol>, n: nat)
    requires n < |log|
    ensures log[n].sym in RqGateway.LogOf(log, log[n].serial)
    decreases |log|
  {
    if n < |log| - 1 {
      SentIsListed(log[..|log| - 1], n);
    }
  }

  lemma {:induction false} SourcesListed(s: nat, k: nat, len: nat, packets: seq<Packet>, x: Symbol)
    requires x in RqGateway.Sources(s, k, len, packets)
    ensures x.esi < |packets| && x == RqGateway.SourceSymbol(s, k, len, x.esi, packets[x.esi])
    decreases |packets|
  {
    var n := |packets| - 1;
    if x in RqGateway.Sources(s, k, len, packets[..n]) {
      SourcesListed(s, k, len, packets[..n], x);
    }
  }

  lemma {:induction false} RepairsListed(c: RqCodec.Codec, s: nat, k: nat, len: nat, src: seq<Packet>, esis: seq<nat>,
                                         x: Symbol)
    requires x in RqGateway.Repairs(c, s, k, len, src, esis)
    ensures x.esi in esis && x == RqGateway.RepairSymbol(c, s, k, len, src, x.esi)
    decreases |esis|
  {
    var n := |esis| - 1;
    if x in RqGateway.Repairs(c, s, k, len, src, esis[..n]) {
      RepairsListed(c, s, k, len, src, esis[..n], x);
      assert esis == esis[..n] + [esis[n]];
    }
  }

  lemma PaddedIsSource(rec: RqGateway.Record, g: RqGateway.Config)
    requires RqGateway.RecordOk(rec, g) && RqGateway.ValidConfig(g)
    ensures var src := Padded(rec);
      && RqCodec.ValidSource(src) && |src| == g.blockSize && |src[0]| == rec.len
      && (forall i :: 0 <= i < |rec.packets| ==> src[i] == rec.packets[i])
      && (|rec.packets| == rec.k ==> src == rec.packets)
  {
    var src := Padded(rec);
    forall i | 0 <= i < |src|
      ensures |src[i]| == rec.len
    {
      if i >= |rec.packets| {
        assert src[i] == Repeat<Byte>(0, rec.len);
      }
    }
  }

  lemma ExpectedIsGenuine(s: nat, rec: RqGateway.Record, c: RqCodec.Codec, g: RqGateway.Config, sym: Symbol)
    requires RqGateway.RecordOk(rec, g) && RqGateway.ValidConfig(g) && RqCodec.Systematic(c)
    requires sym in RqGateway.Expected(c, s, rec) && (|rec.packets| > 0 ==> rec.len >= MIN_IP)
    ensures var src := Padded(rec);
      && RqCodec.ValidSource(src) && SymbolOf(sym, WireId(s), src, c) && SendableSymbol(sym)
      && (sym.esi < |rec.packets| || sym.esi in rec.esis)
  {
    PaddedIsSource(rec, g);
    if sym in RqGateway.Sources(s, rec.k, rec.len, rec.packets) {
      SourcesListed(s, rec.k, rec.len, rec.packets, sym);
    } else {
      RepairsListed(c, s, rec.k, rec.len, rec.packets, rec.esis, sym);
    }
  }

  /** A sent symbol is a symbol of its block, and its id is one of those the block has used. */
  lemma SentIsGenuine(gw: RqGateway.Gateway, src: nat -> seq<Packet>, c: RqCodec.Codec, g: RqGateway.Config, s: nat,
                      sym: Symbol)
    requires IpRun(gw, c, g) && SourcesAre(src, gw) && WasSent(gw.log, s, sym)
    ensures 0 < s <= gw.serial
    ensures var rec := gw.history[s];
      && RqCodec.ValidSource(src(s)) && SymbolOf(sym, WireId(s), src(s), c) && SendableSymbol(sym)
      && (sym.esi < |rec.packets| || sym.esi in rec.esis)
  {
    var n :| 0 <= n < |gw.log| && gw.log[n].serial == s && gw.log[n].sym == sym;
    SentIsListed(gw.log, n);
    assert RqGateway.RecordOk(gw.history[s], g);
    ExpectedIsGenuine(s, gw.history[s], c, g, sym);
  }

  /** Host and receiver agree, and everything that arrives was sent by the host. */
  ghost predicate FedBy(gw: RqGateway.Gateway, src: nat -> seq<Packet>, g: RqGateway.Config, trace: seq<Datagram>,
                        e: Env) {
    IpRun(gw, e.codec, g) && SourcesAre(src, gw) && Agreed(e, g) && FromHost(trace, gw)
  }

  lemma HostTrafficIsGenuine(gw: RqGateway.Gateway, src: nat -> seq<Packet>, g: RqGateway.Config, trace: seq<Datagram>,
                             e: Env)
    requires FedBy(gw, src, g, trace, e)
    ensures Setting(src, e) && Genuine(trace, src, e.codec)
  {
    forall s: nat | RqCodec.ValidSource(src(s))
      ensures |src(s)| <= e.blockSize
    {
      assert RqGateway.RecordOk(gw.history[s], g);
    }
    forall k | 0 <= k < |trace|
      ensures GenuineDatagram(trace[k], src, e.codec)
    {
      SentIsGenuine(gw, src, e.codec, g, trace[k].serial, trace[k].sym);
    }
  }

  /** The numbers below n. */
  ghost function UpTo(n: nat): (s: set<nat>)
    ensures |s| <= n && forall x: nat :: x in s <==> x < n
  {
    if n == 0 then {} else UpTo(n - 1) + {n - 1}
  }

  ghost function Members(xs: seq<nat>): (s: set<nat>)
    ensures |s| <= |xs| && forall x :: x in s <==> x in xs
    decreases |xs|
  {
    if |xs| == 0 then {}
    else
      assert xs == xs[..|xs| - 1] + [xs[|xs| - 1]];
      Members(xs[..|xs| - 1]) + {xs[|xs| - 1]}
  }

  /** No more different symbols of a block arrive than the host has sent. */
  lemma SeenAreUsed(gw: RqGateway.Gateway, src: nat -> seq<Packet>, g: RqGateway.Config, trace: seq<Datagram>,
                    e: Env, s: nat)
    requires FedBy(gw, src, g, trace, e) && 0 < s <= gw.serial
    ensures |EsisOf(trace, s)| <= |gw.history[s].packets| + |gw.history[s].esis|
  {
    forall x | x in EsisOf(trace, s)
      ensures x in UpTo(|gw.history[s].packets|) + Members(gw.history[s].esis)
    {
      var k :| 0 <= k < |trace| && trace[k].serial == s && trace[k].sym.esi == x;
      SentIsGenuine(gw, src, e.codec, g, s, trace[k].sym);
    }
    SubsetIsSmaller(EsisOf(trace, s), UpTo(|gw.history[s].packets|) + Members(gw.history[s].esis));
  }

  /** A block record holds exactly the symbols it has counted, each under its own id. */
  ghost predicate Bounded(b: Block, src: seq<Packet>, c: RqCodec.Codec, n: nat) {
    && |b.esis| == b.sources + b.repairs <= n
    && NoRepeats(b.esis) && (b.inUse ==> RqCodec.RowsOf(c, src, b.rows, b.esis))
  }

  /** Storage and decoder calls of a block, when no more ids have been seen than the host used. */
  ghost predicate Economical(b: Block, src: seq<Packet>, c: RqCodec.Codec, rec: RqGateway.Record, attempts: nat,
                             distinct: bool) {
    && |rec.packets| + |rec.esis| <= MAX_SYMBOLS
    && Bounded(b, src, c, |rec.packets| + |rec.esis|)
    && (|rec.packets| < rec.k ==> attempts == 0)
    && (distinct ==> attempts <= |rec.esis| + 1)
  }

  lemma CountBounds(b: Block, id: nat, src: seq<Packet>, c: RqCodec.Codec, arrivals: nat, seen: set<nat>, attempts: nat,
                    rec: RqGateway.Record, g: RqGateway.Config)
    requires EntryOk(b, id, src, c) && WithinCount(b, arrivals, seen, |src|, attempts) && |src| == rec.k
    requires RqGateway.RecordOk(rec, g) && RqGateway.ValidConfig(g) && |seen| <= |rec.packets| + |rec.esis|
    ensures Economical(b, src, c, rec, attempts, arrivals == |seen|)
  {
    NoMoreThanSeen(b.esis, seen);
  }

  /** When no more different symbols arrive than the block has. */
  lemma SeenBounds(trace: seq<Datagram>, src: nat -> seq<Packet>, e: Env, s: nat, rec: RqGateway.Record,
                   g: RqGateway.Config)
    requires Setting(src, e) && Genuine(trace, src, e.codec)
    requires RqGateway.RecordOk(rec, g) && RqGateway.ValidConfig(g) && |src(s)| == rec.k
    requires |EsisOf(trace, s)| <= |rec.packets| + |rec.esis|
    ensures Economical(Entry(ReceiveIdeal(trace, src, e).slots, s), src(s), e.codec, rec, AttemptsFor(trace, s, src, e),
                       Distinct(trace))
  {
    AttemptsAreBounded(trace, s, src, e);
    var id := ReceiveIdeal(trace, src, e);
    EntryIsOk(id, s, src, e.codec);
    CountBounds(Entry(id.slots, s), WireId(s), src(s), e.codec, ArrivalsOf(trace, s), EsisOf(trace, s),
                AttemptsFor(trace, s, src, e), rec, g);
    if Distinct(trace) {
      DistinctArrivals(trace, s);
    }
  }

  /** The bound across components. Whatever the policy and the metrics, and however often symbols are repeated, of each
      block the receiver holds exactly the different symbols it counted, at most 40, row n being the symbol of the n-th
      id; the decoder is never called for a block that was closed early; and if no symbol is repeated, it is called at
      most once more often than the block has repair symbols. */
  lemma BuffersSuffice(gw: RqGateway.Gateway, src: nat -> seq<Packet>, g: RqGateway.Config, trace: seq<Datagram>,
                       e: Env, s: nat)
    requires FedBy(gw, src, g, trace, e) && 0 < s <= gw.serial
    ensures Setting(src, e) && Genuine(trace, src, e.codec)
    ensures Economical(Entry(ReceiveIdeal(trace, src, e).slots, s), src(s), e.codec, gw.history[s],
                       AttemptsFor(trace, s, src, e), Distinct(trace))
  {
    HostTrafficIsGenuine(gw, src, g, trace, e);
    SeenAreUsed(gw, src, g, trace, e, s);
    assert RqGateway.RecordOk(gw.history[s], g);
    SeenBounds(trace, src, e, s, gw.history[s], g);
  }

  // ----- the whole pipeline

  /** What goes out for a block is what the host intercepted for it, each packet at most once; the block counts as
      finished exactly when all packets of a full block have gone out. */
  ghost predicate BlockDelivered(rec: RqGateway.Record, outs: seq<Delivery>, done: bool) {
    && Right(outs, rec.packets) && Once(outs)
    && (done <==> |rec.packets| == rec.k && forall j :: 0 <= j < |rec.packets| ==> Sent(outs, j))
  }

  ghost predicate RunDelivered(gw: RqGateway.Gateway, id: Ideal)
    requires |gw.history| == gw.serial + 1
  {
    NoRepeats(id.done) && forall s :: 0 < s <= gw.serial ==> BlockDelivered(gw.history[s], Of(id.log, s), s in id.done)
  }

  /** Of a block that was closed early only its intercepted packets arrive. */
  lemma PartialBlockSeen(gw: RqGateway.Gateway, src: nat -> seq<Packet>, g: RqGateway.Config, trace: seq<Datagram>,
                         e: Env, s: nat)
    requires FedBy(gw, src, g, trace, e) && 0 < s <= gw.serial
    requires |gw.history[s].packets| < gw.history[s].k
    ensures EsisOf(trace, s) <= UpTo(|gw.history[s].packets|)
  {
    assert RqGateway.RecordOk(gw.history[s], g);
    forall x | x in EsisOf(trace, s)
      ensures x in UpTo(|gw.history[s].packets|)
    {
      var k :| 0 <= k < |trace| && trace[k].serial == s && trace[k].sym.esi == x;
      SentIsGenuine(gw, src, e.codec, g, s, trace[k].sym);
    }
  }

  /** And only those go out. */
  lemma PartialBlockOutput(gw: RqGateway.Gateway, src: nat -> seq<Packet>, g: RqGateway.Config, trace: seq<Datagram>,
                           e: Env, s: nat)
    requires FedBy(gw, src, g, trace, e) && 0 < s <= gw.serial
    requires Setting(src, e) && Genuine(trace, src, e.codec)
    requires |gw.history[s].packets| < gw.history[s].k
    ensures IndicesIn(Of(ReceiveIdeal(trace, src, e).log, s), UpTo(|gw.history[s].packets|))
  {
    BuffersSuffice(gw, src, g, trace, e, s);
    OutputIsCaused(trace, s, src, e);
    PartialBlockSeen(gw, src, g, trace, e, s);
  }

  lemma SafeIsDelivered(rec: RqGateway.Record, g: RqGateway.Config, outs: seq<Delivery>, done: bool)
    requires RqGateway.RecordOk(rec, g) && RqGateway.ValidConfig(g) && BlockSafe(outs, done, Padded(rec))
    requires |rec.packets| < rec.k ==> IndicesIn(outs, UpTo(|rec.packets|))
    ensures BlockDelivered(rec, outs, done)
  {
    PaddedIsSource(rec, g);
    if |rec.packets| < rec.k {
      assert !Sent(outs, |rec.packets|);
    }
  }

  lemma BlockIsDelivered(gw: RqGateway.Gateway, src: nat -> seq<Packet>, g: RqGateway.Config, trace: seq<Datagram>,
                         e: Env, s: nat)
    requires FedBy(gw, src, g, trace, e) && 0 < s <= gw.serial
    requires Setting(src, e) && Genuine(trace, src, e.codec)
    requires var id := ReceiveIdeal(trace, src, e);
      BlockSafe(Of(id.log, s), s in id.done, src(s))
    ensures var id := ReceiveIdeal(trace, src, e);
      BlockDelivered(gw.history[s], Of(id.log, s), s in id.done)
  {
    assert RqGateway.RecordOk(gw.history[s], g);
    if |gw.history[s].packets| < gw.history[s].k {
      PartialBlockOutput(gw, src, g, trace, e, s);
    }
    var id := ReceiveIdeal(trace, src, e);
    SafeIsDelivered(gw.history[s], g, Of(id.log, s), s in id.done);
  }

  lemma {:induction false} NeverArrived(trace: seq<Datagram>, s: nat, src: nat -> seq<Packet>, e: Env)
    requires Setting(src, e) && Genuine(trace, src, e.codec) && !RqCodec.ValidSource(src(s))
    ensures Of(ReceiveIdeal(trace, src, e).log, s) == []
    decreases |trace|
  {
    if |trace| == 0 {
    } else {
      var before, d := trace[..|trace| - 1], trace[|trace| - 1];
      GenuineLast(trace, src, e.codec);
      assert trace == before + [d];
      NeverArrived(before, s, src, e);
      UnfoldIdeal(before, d, src, e);
      IdealByResult(ReceiveIdeal(before, src, e), d, e, s);
    }
  }

  lemma BlockIsOnce(gw: RqGateway.Gateway, id: Ideal, s: nat)
    requires |gw.history| == gw.serial + 1 && 0 < s <= gw.serial && RunDelivered(gw, id)
    ensures Once(Of(id.log, s))
  {
  }

  lemma DeliveredIsOnce(gw: RqGateway.Gateway, src: nat -> seq<Packet>, trace: seq<Datagram>, e: Env, id: Ideal, s: nat)
    requires SourcesAre(src, gw) && Setting(src, e) && Genuine(trace, src, e.codec)
    requires id == ReceiveIdeal(trace, src, e) && RunDelivered(gw, id)
    ensures Once(Of(id.log, s))
  {
    if 0 < s <= gw.serial {
      BlockIsOnce(gw, id, s);
    } else {
      NothingOf(gw, src, s);
      NeverArrived(trace, s, src, e);
    }
  }

  lemma NothingOf(gw: RqGateway.Gateway, src: nat -> seq<Packet>, s: nat)
    requires SourcesAre(src, gw) && !(0 < s <= gw.serial)
    ensures !RqCodec.ValidSource(src(s))
  {
  }

  lemma QuietIsDelivered(gw: RqGateway.Gateway, src: nat -> seq<Packet>, g: RqGateway.Config, trace: seq<Datagram>,
                         e: Env)
    requires FedBy(gw, src, g, trace, e)
    requires Setting(src, e) && Genuine(trace, src, e.codec) && RunSafe(ReceiveIdeal(trace, src, e), src)
    ensures RunDelivered(gw, ReceiveIdeal(trace, src, e))
  {
    var id := ReceiveIdeal(trace, src, e);
    forall s | 0 < s <= gw.serial
      ensures BlockDelivered(gw.history[s], Of(id.log, s), s in id.done)
    {
      assert BlockSafe(Of(id.log, s), s in id.done, src(s));
      BlockIsDelivered(gw, src, g, trace, e, s);
    }
  }

  /** Host and receiver together, whatever is lost, repeated or refused: each intercepted packet is handed on at
      most once, byte-identical, nothing else is, and a block counts as finished, once, exactly when every packet of
      a full block has been handed on, if and only if no symbol of a finished block lands once more. */
  lemma DeliveredIffQuiet(gw: RqGateway.Gateway, src: nat -> seq<Packet>, g: RqGateway.Config, trace: seq<Datagram>,
                          e: Env)
    requires FedBy(gw, src, g, trace, e)
    requires Setting(src, e) && Genuine(trace, src, e.codec)
    ensures RunDelivered(gw, ReceiveIdeal(trace, src, e)) <==> Quiet(trace, src, e)
  {
    SafeIffQuiet(trace, src, e);
    if Quiet(trace, src, e) {
      QuietIsDelivered(gw, src, g, trace, e);
    } else if RunDelivered(gw, ReceiveIdeal(trace, src, e)) {
      DisturbedRunShows(trace, src, e);
      var s :| !Once(Of(ReceiveIdeal(trace, src, e).log, s));
      DeliveredIsOnce(gw, src, trace, e, ReceiveIdeal(trace, src, e), s);
    }
  }

  /** The same through the 1024-slot table and the bounded list, for any number of blocks: for every run of the host and
      everything that arrives of it. */
  lemma PipelineIsSafe(gw: RqGateway.Gateway, g: RqGateway.Config, trace: seq<Datagram>, e: Env)
    requires IpRun(gw, e.codec, g) && Agreed(e, g) && FromHost(trace, gw)
    ensures var src := SourcesOf(gw);
      && SourcesAre(src, gw) && Setting(src, e) && Genuine(trace, src, e.codec)
      && var id := ReceiveIdeal(trace, src, e);
         Separate(trace, src, e) && |id.done| <= MAX_BLOCKS ==>
           && Accepted(Inputs(trace), e)
           && var rx := Receive(Inputs(trace), e);
              && rx.log == Untag(id.log) && rx.done == WireIds(id.done)
              && (RunDelivered(gw, id) <==> Quiet(trace, src, e))
  {
    var src := SourcesOf(gw);
    SourcesExist(gw, e.codec, g);
    HostTrafficIsGenuine(gw, src, g, trace, e);
    DeliveredIffQuiet(gw, src, g, trace, e);
    if Separate(trace, src, e) && |ReceiveIdeal(trace, src, e).done| <= MAX_BLOCKS {
      TableRefinesMap(trace, src, e);
    }
  }
}
