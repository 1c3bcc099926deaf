/** From the generator's sequence numbers to the destination's summary. */
module EndToEnd {
  import opened Bags
  import opened Base
  import opened Deliveries
  import opened RsCodec
  import opened Wire
  import opened RsSlot
  import opened RsGateway
  import opened RsTable
  import opened RsComposition
  import opened RsPipeline
  import RsSystem
  import Pacer
  import Destination

  // ----- the application header: run id and sequence number, in host byte order

  const HEADERS: nat := 28
  const TAG: nat := 8

  function Encode32(n: nat): (b: seq<Byte>)
    requires n < UINT32
    ensures |b| == 4
  {
    [ByteOf(n % 256), ByteOf(n / 256 % 256), ByteOf(n / 65536 % 256), ByteOf(n / 16777216)]
  }

  function Decode32(b: seq<Byte>): nat
    requires |b| >= 4
  {
    Value(b[0]) + 256 * Value(b[1]) + 65536 * Value(b[2]) + 16777216 * Value(b[3])
  }

  lemma RoundTrip32(n: nat)
    requires n < UINT32
    ensures Decode32(Encode32(n)) == n
  {
    Digits(n);
  }

  lemma Digits(n: nat)
    ensures n == n % 256 + 256 * (n / 256 % 256) + 65536 * (n / 65536 % 256) + 16777216 * (n / 16777216)
  {
    assert n / 65536 == n / 256 / 256 && n / 16777216 == n / 65536 / 256;
  }

  /** IP and UDP headers, the tag, and padding. */
  datatype Frame = Frame(headers: seq<Byte>, padding: seq<Byte>)

  ghost predicate ValidFrame(f: Frame) {
    |f.headers| == HEADERS && HEADERS + TAG + |f.padding| <= MAX_PKT_LEN
  }

  function Build(f: Frame, run: nat, seqNo: nat): (pkt: Packet)
    requires ValidFrame(f) && run < UINT32 && seqNo < UINT32
    ensures HEADERS + TAG <= |pkt| <= MAX_PKT_LEN
  {
    f.headers + Encode32(run) + Encode32(seqNo) + f.padding
  }

  /** What the destination reads from a packet's UDP payload. */
  function Content(pkt: Packet): Destination.Datagram {
    if |pkt| < HEADERS + TAG then Destination.Short
    else Destination.Tagged(Decode32(pkt[HEADERS..HEADERS + 4]), Decode32(pkt[HEADERS + 4..HEADERS + 8]))
  }

  lemma ContentOfBuild(f: Frame, run: nat, seqNo: nat)
    requires ValidFrame(f) && run < UINT32 && seqNo < UINT32
    ensures Content(Build(f, run, seqNo)) == Destination.Tagged(run, seqNo)
  {
    var pkt := Build(f, run, seqNo);
    assert pkt[HEADERS..HEADERS + 4] == Encode32(run);
    assert pkt[HEADERS + 4..HEADERS + 8] == Encode32(seqNo);
    RoundTrip32(run);
    RoundTrip32(seqNo);
  }

  /** Where they are: behind 28 bytes of headers, four bytes each, the low byte first. */
  lemma TagLayout(f: Frame, run: nat, seqNo: nat)
    requires ValidFrame(f) && run < UINT32 && seqNo < UINT32
    ensures var b := Build(f, run, seqNo);
      && Value(b[28]) + 256 * Value(b[29]) + 0x1_0000 * Value(b[30]) + 0x100_0000 * Value(b[31]) == run
      && Value(b[32]) + 256 * Value(b[33]) + 0x1_0000 * Value(b[34]) + 0x100_0000 * Value(b[35]) == seqNo
      && b[36..] == f.padding
  {
    Digits(run);
    Digits(seqNo);
  }

  // ----- the generator's packets

  /** Packet k of a paced run carries the sequence number of the k-th send. */
  ghost predicate Generated(pkts: seq<Packet>, sends: seq<Pacer.Send>, frames: seq<Frame>, run: nat) {
    && run < UINT32 && |pkts| == |sends| == |frames| < UINT32
    && forall k :: 0 <= k < |pkts| ==>
         ValidFrame(frames[k]) && sends[k].seqNo < UINT32 && pkts[k] == Build(frames[k], run, sends[k].seqNo)
  }

  /** Every packet carries its own number. */
  ghost predicate Numbered(pkts: seq<Packet>, run: nat) {
    forall k :: 0 <= k < |pkts| ==> |pkts[k]| >= MIN_IP && Content(pkts[k]) == Destination.Tagged(run, k)
  }

  lemma GeneratedIsNumbered(pkts: seq<Packet>, sends: seq<Pacer.Send>, frames: seq<Frame>, run: nat, start: nat,
                            period: nat)
    requires Generated(pkts, sends, frames, run) && Pacer.Paced(sends, start, period)
    ensures Numbered(pkts, run)
  {
    forall k | 0 <= k < |pkts|
      ensures |pkts[k]| >= MIN_IP && Content(pkts[k]) == Destination.Tagged(run, k)
    {
      ContentOfBuild(frames[k], run, sends[k].seqNo);
    }
  }

  // ----- what the destination gets

  function Contents(pkts: seq<Packet>): (stream: seq<Destination.Datagram>)
    ensures |stream| == |pkts|
  {
    seq(|pkts|, k requires 0 <= k < |pkts| => Content(pkts[k]))
  }

  /** If a bag of packets is the numbered packets, then every packet in it has a number below n. */
  lemma SamePackets(got: seq<Packet>, pkts: seq<Packet>, run: nat)
    requires multiset(got) == multiset(pkts) && Numbered(pkts, run)
    ensures |got| == |pkts|
    ensures forall j :: 0 <= j < |got| ==> Content(got[j]).Tagged? && Content(got[j]).run == run
    ensures forall k :: 0 <= k < |pkts| ==> Destination.Tagged(run, k) in Contents(got)
  {
    assert |multiset(got)| == |multiset(pkts)|;
    forall j | 0 <= j < |got|
      ensures Content(got[j]).Tagged? && Content(got[j]).run == run
    {
      assert got[j] in multiset(pkts);
      assert got[j] in pkts;
    }
    forall k | 0 <= k < |pkts|
      ensures Destination.Tagged(run, k) in Contents(got)
    {
      assert pkts[k] in multiset(got);
      assert pkts[k] in got;
      var j :| 0 <= j < |got| && got[j] == pkts[k];
      assert Contents(got)[j] == Destination.Tagged(run, k);
    }
  }

  /** A stream of one run is received as it is. */
  lemma {:induction false} OneRun(stream: seq<Destination.Datagram>, run: nat)
    requires |stream| > 0 && forall k :: 0 <= k < |stream| ==> stream[k].Tagged? && stream[k].run == run
    ensures var v := Destination.Watch(stream);
      && v.haveRun && v.run == run && |v.received| == |stream|
      && forall k :: 0 <= k < |stream| ==> v.received[k] == stream[k].seqNo
    decreases |stream|
  {
    var before := stream[..|stream| - 1];
    if |before| > 0 {
      OneRun(before, run);
    } else {
      assert Destination.Watch(before) == Destination.View(false, 0, []);
    }
  }

  /** A destination that gets a permutation of the numbered packets sees a complete run. */
  lemma PermutationIsComplete(got: seq<Packet>, pkts: seq<Packet>, run: nat)
    requires multiset(got) == multiset(pkts) && Numbered(pkts, run) && |pkts| > 0
    ensures CompleteView(Destination.Watch(Contents(got)), run, |pkts|)
  {
    SamePackets(got, pkts, run);
    var stream := Contents(got);
    OneRun(stream, run);
    var received := Destination.Watch(stream).received;
    forall i | 0 <= i < |pkts|
      ensures i in received
    {
      var j :| 0 <= j < |stream| && stream[j] == Destination.Tagged(run, i);
      assert received[j] == i;
    }
    Destination.CompleteRun(received, |pkts|);
  }

  /** n numbers received, all distinct, none out of range, none missing. */
  ghost predicate CompleteView(v: Destination.View, run: nat, n: nat) {
    && v.haveRun && v.run == run && |v.received| == n
    && |Destination.InRange(v.received, n)| == n
    && Destination.OutOfRange(v.received, n) == 0 && Destination.Absent(v.received, n) == []
  }

  // ----- packets are long enough to be forwarded

  lemma {:induction false} GenerationIsPartOfHistory(history: seq<seq<Packet>>, s: nat)
    requires s < |history| && |history[s]| > 0
    ensures history[s][0] in Flatten(history)
    decreases |history|
  {
    var n := |history| - 1;
    if s == n {
      assert Flatten(history)[|Flatten(history[..n])|] == history[n][0];
    } else {
      GenerationIsPartOfHistory(history[..n], s);
      var k :| 0 <= k < |Flatten(history[..n])| && Flatten(history[..n])[k] == history[s][0];
      assert Flatten(history)[k] == history[s][0];
    }
  }

  lemma NumberedIsIp(evs: seq<RsSystem.Event>, c: Codec, r: nat, run: nat)
    requires Shaped(c, r) && Numbered(Intercepted(evs), run)
    ensures AllIp(RsSystem.Run(evs, c, r).gw)
  {
    var gw := RsSystem.Run(evs, c, r).gw;
    HistoryIsIntercepted(evs, c, r);
    forall s | 0 < s <= gw.serial
      ensures |gw.history[s][0]| >= MIN_IP
    {
      assert ValidPackets(gw.history[s]);
      GenerationIsPartOfHistory(gw.history, s);
      var k :| 0 <= k < |Intercepted(evs)| && Intercepted(evs)[k] == gw.history[s][0];
    }
  }

  /** End to end. A paced run is intercepted; the two paths lose, delay and interleave fragments; every full
      generation stays recoverable and no packet of a partial one is lost; generations that share a slot do not
      interleave; the raw socket refuses nothing and the last hop loses nothing. Then the destination, told to
      expect as many packets as were sent, has each exactly once. */
  lemma EverythingArrives(sends: seq<Pacer.Send>, start: nat, period: nat, frames: seq<Frame>, run: nat,
                          evs: seq<RsSystem.Event>, trace: seq<Datagram>, e: Env)
    requires Pacer.Paced(sends, start, period) && |sends| > 0 && Generated(Intercepted(evs), sends, frames, run)
    requires EnvOk(e) && e.r != 1 && Correct(e.codec, e.r)
    requires AllRecoverable(RsSystem.Run(evs, e.codec, e.r), e.r)
    requires Carries(trace, Items(RsSystem.Run(evs, e.codec, e.r))) && Orderly(trace)
    ensures AllWellformed(trace)
    ensures NothingRefused(Receive(trace, e).log) ==>
              CompleteView(Destination.Watch(Contents(TakenFrom(Receive(trace, e).log))), run, |sends|)
  {
    var pkts := Intercepted(evs);
    GeneratedIsNumbered(pkts, sends, frames, run, start, period);
    NumberedIsIp(evs, e.codec, e.r, run);
    EverythingIsHandedOn(evs, trace, e);
    if NothingRefused(Receive(trace, e).log) {
      AllTaken(Receive(trace, e).log);
      PermutationIsComplete(PacketsOf(Receive(trace, e).log), pkts, run);
    }
  }

  /** What that means for the program's own counters and for its bitmap. */
  lemma CompleteViewInCounters(server: Destination.Server, run: nat, n: nat)
    requires server.BitmapOk() && server.CountersOk() && server.expected == n > 0 && CompleteView(server.Seen(), run, n)
    ensures server.uniques == n && server.dups == 0 && forall i :: 0 <= i < n ==> server.seen[i]
  {
    Destination.AbsentIsExact(server.received, n);
  }
}
