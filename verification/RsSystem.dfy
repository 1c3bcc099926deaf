/** The Reed-Solomon protocol as one system of host, two lossy paths and receiver. */
module RsSystem {
  import opened Base
  import opened RsCodec
  import opened Wire
  import opened RsGeneration
  import opened RsGateway

  // The paths are first in, first out; of the receiver only the list of arrivals matters here.

  /** An intercepted packet, the end of a receive batch, or the next fragment of a path arriving or being lost. */
  datatype Event = Intercept(pkt: Packet) | BatchEnd | Take(fromB: bool, lost: bool)

  /** An arrival: which path, and which fragment of everything ever sent on it. */
  datatype Hop = Hop(onB: bool, at: nat)

  /** `fateA[j]` says whether fragment j of path A was delivered; what lies beyond is still in flight. */
  datatype System = System(gw: Gateway, fateA: seq<bool>, fateB: seq<bool>, arrived: seq<Hop>)

  function Start(): System {
    System(Initial(), [], [], [])
  }

  function Fate(s: System, onB: bool): seq<bool> {
    if onB then s.fateB else s.fateA
  }

  function PathLog(gw: Gateway, onB: bool): seq<Sent> {
    if onB then gw.pathB else gw.pathA
  }

  function Step(s: System, ev: Event, c: Codec, r: nat): System
    requires Inv(s.gw, c, r)
  {
    match ev
    case Intercept(pkt) => s.(gw := OnPacket(s.gw, pkt))
    case BatchEnd => BatchEndKeepsInv(s.gw, c, r); s.(gw := OnBatchEnd(s.gw, c, r))
    case Take(onB, lost) =>
      var at := |Fate(s, onB)|;
      if at >= |PathLog(s.gw, onB)| then s
      else
        var s1 := if onB then s.(fateB := s.fateB + [!lost]) else s.(fateA := s.fateA + [!lost]);
        if lost then s1 else s1.(arrived := s1.arrived + [Hop(onB, at)])
  }

  ghost function Run(evs: seq<Event>, c: Codec, r: nat): (s: System)
    requires Shaped(c, r)
    ensures Inv(s.gw, c, r) && ChannelInv(s)
    decreases |evs|
  {
    if |evs| == 0 then
      InitialInv(c, r);
      Start()
    else
      var s := Run(evs[..|evs| - 1], c, r);
      StepKeeps(s, evs[|evs| - 1], c, r);
      Step(s, evs[|evs| - 1], c, r)
  }

  // ----- the channel invariant

  ghost predicate HopOk(s: System, h: Hop) {
    && h.at < |Fate(s, h.onB)| && Fate(s, h.onB)[h.at]
  }

  ghost predicate ChannelInv(s: System) {
    && |s.fateA| <= |s.gw.pathA| && |s.fateB| <= |s.gw.pathB|
    && (forall k :: 0 <= k < |s.arrived| ==> HopOk(s, s.arrived[k]))
    && (forall k, l :: 0 <= k < l < |s.arrived| && s.arrived[k].onB == s.arrived[l].onB ==>
          s.arrived[k].at < s.arrived[l].at)
    && (forall h :: HopOk(s, h) ==> h in s.arrived)
  }

  lemma LogsGrow(gw: Gateway, pkt: Packet)
    requires |gw.history| == gw.serial + 1
    ensures var g := OnPacket(gw, pkt); gw.pathA <= g.pathA && gw.pathB <= g.pathB
  {
  }

  lemma {:induction false} ParityLogsGrow(gw: Gateway, c: Codec, r: nat, b: Batch, n: nat)
    requires Shaped(c, r) && n <= r && ValidPackets(b.packets) && |b.packets| == K
    ensures var g := SendParity(gw, c, r, b, n); gw.pathA <= g.pathA && gw.pathB <= g.pathB
  {
    if n == 0 {
    } else {
      ParityLogsGrow(gw, c, r, b, n - 1);
    }
  }

  lemma LossKeepsChannel(s: System, onB: bool)
    requires ChannelInv(s) && |Fate(s, onB)| < |PathLog(s.gw, onB)|
    ensures ChannelInv(if onB then s.(fateB := s.fateB + [false]) else s.(fateA := s.fateA + [false]))
  {
    var s' := if onB then s.(fateB := s.fateB + [false]) else s.(fateA := s.fateA + [false]);
    forall h
      ensures HopOk(s', h) <==> HopOk(s, h)
    {
    }
  }

  lemma ArrivalKeepsChannel(s: System, onB: bool)
    requires ChannelInv(s) && |Fate(s, onB)| < |PathLog(s.gw, onB)|
    ensures ChannelInv((if onB then s.(fateB := s.fateB + [true]) else s.(fateA := s.fateA + [true]))
                       .(arrived := s.arrived + [Hop(onB, |Fate(s, onB)|)]))
  {
    var h0 := Hop(onB, |Fate(s, onB)|);
    var s1 := if onB then s.(fateB := s.fateB + [true]) else s.(fateA := s.fateA + [true]);
    var s' := s1.(arrived := s.arrived + [h0]);
    forall h
      ensures HopOk(s', h) <==> HopOk(s, h) || h == h0
    {
    }
    assert s'.arrived[|s.arrived|] == h0;
    assert forall k :: 0 <= k < |s.arrived| ==> s'.arrived[k] == s.arrived[k];
  }

  lemma TakeKeepsChannel(s: System, onB: bool, lost: bool, c: Codec, r: nat)
    requires Inv(s.gw, c, r) && ChannelInv(s)
    ensures ChannelInv(Step(s, Take(onB, lost), c, r))
  {
    if |Fate(s, onB)| < |PathLog(s.gw, onB)| {
      if lost {
        LossKeepsChannel(s, onB);
      } else {
        ArrivalKeepsChannel(s, onB);
      }
    }
  }

  lemma StepKeeps(s: System, ev: Event, c: Codec, r: nat)
    requires Inv(s.gw, c, r) && ChannelInv(s)
    ensures Inv(Step(s, ev, c, r).gw, c, r) && ChannelInv(Step(s, ev, c, r))
  {
    var s' := Step(s, ev, c, r);
    match ev {
      case Intercept(pkt) =>
        PacketKeepsInv(s.gw, pkt, c, r);
        LogsGrow(s.gw, pkt);
      case BatchEnd =>
        BatchEndKeepsInv(s.gw, c, r);
        if s.gw.pending.Some? {
          ParityLogsGrow(s.gw, c, r, s.gw.pending.value, r);
        }
      case Take(onB, lost) =>
        TakeKeepsChannel(s, onB, lost, c, r);
    }
    forall h | HopOk(s', h) && !ev.Take?
      ensures h in s'.arrived
    {
      assert HopOk(s, h);
    }
    forall k | 0 <= k < |s.arrived| && !ev.Take?
      ensures HopOk(s', s'.arrived[k])
    {
      assert HopOk(s, s.arrived[k]);
    }
  }

  // ----- what happened to a fragment

  function Item(s: System, h: Hop): Sent
    requires h.at < |PathLog(s.gw, h.onB)|
  {
    PathLog(s.gw, h.onB)[h.at]
  }

  ghost predicate Matches(x: Sent, serial: nat, m: Mark) {
    x.serial == serial && x.mark == m
  }

  ghost predicate InFlight(s: System, serial: nat, m: Mark)
    requires ChannelInv(s)
  {
    exists h: Hop :: |Fate(s, h.onB)| <= h.at < |PathLog(s.gw, h.onB)| && Matches(Item(s, h), serial, m)
  }

  ghost predicate Arrived(s: System, serial: nat, m: Mark)
    requires ChannelInv(s)
  {
    exists h: Hop :: HopOk(s, h) && Matches(Item(s, h), serial, m)
  }

  ghost predicate Lost(s: System, serial: nat, m: Mark)
    requires ChannelInv(s)
  {
    exists h: Hop :: h.at < |Fate(s, h.onB)| && !Fate(s, h.onB)[h.at] && Matches(Item(s, h), serial, m)
  }

  ghost predicate ParityArrived(s: System, r: nat, serial: nat)
    requires ChannelInv(s)
  {
    r > 0 && forall p :: 0 <= p < r ==> Arrived(s, serial, ParityMark(p))
  }

  /** The gate is safe: once all parity of a generation has arrived, none of its data is in flight or will be sent, and
      a packet is missing exactly if the network lost it. */
  ghost predicate GateIsSafe(s: System, c: Codec, r: nat, serial: nat)
    requires Inv(s.gw, c, r) && ChannelInv(s)
  {
    && Closed(s.gw, serial)
    && forall i :: 0 <= i < K ==>
         && !InFlight(s, serial, DataMark(i))
         && (Arrived(s, serial, DataMark(i)) <==> !Lost(s, serial, DataMark(i)))
  }

  lemma ItemIsGenuine(s: System, c: Codec, r: nat, h: Hop)
    requires Inv(s.gw, c, r) && h.at < |PathLog(s.gw, h.onB)|
    ensures Genuine(s.gw, c, r, Item(s, h)) && OnPathB(Item(s, h).mark) == h.onB
  {
    assert PathOk(s.gw, c, r, PathLog(s.gw, h.onB), h.onB);
  }

  /** On one path, data of a generation is never behind its parity. */
  lemma DataPrecedesParity(s: System, c: Codec, r: nat, serial: nat, p: nat, i: nat, h: Hop, h': Hop)
    requires Inv(s.gw, c, r) && h.at < |PathLog(s.gw, h.onB)| && h'.at < |PathLog(s.gw, h'.onB)|
    requires Matches(Item(s, h), serial, ParityMark(p)) && Matches(Item(s, h'), serial, DataMark(i)) && i % 2 == p % 2
    ensures h'.onB == h.onB && h'.at < h.at
  {
    ItemIsGenuine(s, c, r, h);
    ItemIsGenuine(s, c, r, h');
    var log := PathLog(s.gw, h.onB);
    assert PathOk(s.gw, c, r, log, h.onB);
    DataIsBefore(log, h.at, h'.at);
  }

  lemma DataIsBefore(log: seq<Sent>, j: nat, i: nat)
    requires Ordered(log) && i < |log| && j < |log| && log[i].serial == log[j].serial
    requires log[j].mark.ParityMark? && log[i].mark.DataMark?
    ensures i < j
  {
    assert log[i].mark != log[j].mark;
  }

  /** The same for any two places, told apart by the path they belong to. */
  lemma SamePathOrder(s: System, c: Codec, r: nat, serial: nat, h: Hop, h': Hop)
    requires Inv(s.gw, c, r) && h.at < |PathLog(s.gw, h.onB)| && h'.at < |PathLog(s.gw, h'.onB)|
    requires Item(s, h).serial == serial == Item(s, h').serial
    requires Item(s, h).mark.ParityMark? && Item(s, h').mark.DataMark?
    ensures OnPathB(Item(s, h).mark) == OnPathB(Item(s, h').mark) ==> h'.onB == h.onB && h'.at < h.at
  {
    if OnPathB(Item(s, h).mark) == OnPathB(Item(s, h').mark) {
      DataPrecedesParity(s, c, r, serial, Item(s, h).mark.p, Item(s, h').mark.i, h, h');
    }
  }

  /** Any two places in the logs of the same fragment are the same place. */
  lemma OnePlace(s: System, c: Codec, r: nat, serial: nat, m: Mark, h: Hop, h': Hop)
    requires Inv(s.gw, c, r) && h.at < |PathLog(s.gw, h.onB)| && h'.at < |PathLog(s.gw, h'.onB)|
    requires Matches(Item(s, h), serial, m) && Matches(Item(s, h'), serial, m)
    ensures h == h'
  {
    ItemIsGenuine(s, c, r, h);
    ItemIsGenuine(s, c, r, h');
    assert Ordered(PathLog(s.gw, h.onB));
  }

  lemma SentSomewhere(s: System, c: Codec, r: nat, serial: nat, i: nat) returns (h: Hop)
    requires Inv(s.gw, c, r) && IsData(s.gw, serial, i)
    ensures h.at < |PathLog(s.gw, h.onB)| && Matches(Item(s, h), serial, DataMark(i))
  {
    var log := PathOf(s.gw, DataMark(i));
    assert IsOn(log, serial, DataMark(i));
    var k :| 0 <= k < |log| && log[k].serial == serial && log[k].mark == DataMark(i);
    h := Hop(OnPathB(DataMark(i)), k);
  }

  ghost predicate OnlyPlace(s: System, serial: nat, m: Mark, h: Hop) {
    && h.at < |PathLog(s.gw, h.onB)| && Matches(Item(s, h), serial, m)
    && forall h': Hop :: h'.at < |PathLog(s.gw, h'.onB)| && Matches(Item(s, h'), serial, m) ==> h' == h
  }

  lemma DataHasOnePlace(s: System, c: Codec, r: nat, serial: nat, i: nat) returns (h: Hop)
    requires Inv(s.gw, c, r) && IsData(s.gw, serial, i)
    ensures OnlyPlace(s, serial, DataMark(i), h)
  {
    h := SentSomewhere(s, c, r, serial, i);
    forall h': Hop | h'.at < |PathLog(s.gw, h'.onB)| && Matches(Item(s, h'), serial, DataMark(i))
      ensures h' == h
    {
      OnePlace(s, c, r, serial, DataMark(i), h, h');
    }
  }

  /** A fragment taken off its path was either delivered or lost. */
  lemma PlaceDecides(s: System, serial: nat, m: Mark, h: Hop)
    requires ChannelInv(s) && OnlyPlace(s, serial, m, h) && h.at < |Fate(s, h.onB)|
    ensures !InFlight(s, serial, m)
    ensures Arrived(s, serial, m) <==> !Lost(s, serial, m)
  {
    if Fate(s, h.onB)[h.at] {
      assert HopOk(s, h);
    }
  }

  /** Every data place of a generation with parity on the wire, found on the path it shares with that parity. */
  lemma DataIsAheadOfParity(s: System, c: Codec, r: nat, serial: nat, p: nat, i: nat, hp: Hop) returns (h: Hop)
    requires Inv(s.gw, c, r) && i < K && i % 2 == p % 2
    requires hp.at < |PathLog(s.gw, hp.onB)| && Matches(Item(s, hp), serial, ParityMark(p))
    ensures OnlyPlace(s, serial, DataMark(i), h) && h.onB == hp.onB && h.at < hp.at
  {
    ItemIsGenuine(s, c, r, hp);
    assert IsData(s.gw, serial, i);
    h := DataHasOnePlace(s, c, r, serial, i);
    DataPrecedesParity(s, c, r, serial, p, i, hp, h);
  }

  lemma ParityMeansClosed(s: System, c: Codec, r: nat, serial: nat, p: nat, hp: Hop)
    requires Inv(s.gw, c, r) && hp.at < |PathLog(s.gw, hp.onB)| && Matches(Item(s, hp), serial, ParityMark(p))
    ensures 0 < serial <= s.gw.serial && Closed(s.gw, serial) && |s.gw.history[serial]| == K && p < r
  {
    ItemIsGenuine(s, c, r, hp);
  }

  /** With two or more parity fragments there is one behind the data of each path. */
  lemma GateSafety(s: System, c: Codec, r: nat, serial: nat)
    requires Inv(s.gw, c, r) && ChannelInv(s) && r != 1 && ParityArrived(s, r, serial)
    ensures GateIsSafe(s, c, r, serial)
  {
    forall i | 0 <= i < K
      ensures !InFlight(s, serial, DataMark(i)) && (Arrived(s, serial, DataMark(i)) <==> !Lost(s, serial, DataMark(i)))
    {
      var hp := ArrivedAt(s, serial, ParityMark(i % 2));
      var h := DataIsAheadOfParity(s, c, r, serial, i % 2, i, hp);
      PlaceDecides(s, serial, DataMark(i), h);
    }
    var hp := ArrivedAt(s, serial, ParityMark(0));
    ParityMeansClosed(s, c, r, serial, 0, hp);
  }

  lemma ArrivedAt(s: System, serial: nat, m: Mark) returns (h: Hop)
    requires ChannelInv(s) && Arrived(s, serial, m)
    ensures HopOk(s, h) && Matches(Item(s, h), serial, m)
  {
    h :| HopOk(s, h) && Matches(Item(s, h), serial, m);
  }

  /** Safety over whole runs. */
  lemma GateIsSafeInEveryRun(evs: seq<Event>, c: Codec, r: nat, serial: nat)
    requires Shaped(c, r) && r != 1 && ParityArrived(Run(evs, c, r), r, serial)
    ensures GateIsSafe(Run(evs, c, r), c, r, serial)
  {
    GateSafety(Run(evs, c, r), c, r, serial);
  }

  // ----- one parity fragment is not enough

  lemma UnfoldRun(evs: seq<Event>, ev: Event, c: Codec, r: nat)
    requires Shaped(c, r)
    ensures Run(evs + [ev], c, r) == Step(Run(evs, c, r), ev, c, r)
  {
    assert (evs + [ev])[..|evs|] == evs;
  }

  ghost predicate OneSize(pkts: seq<Packet>) {
    forall i :: 0 <= i < |pkts| ==> 0 < |pkts[i]| <= MAX_PKT_LEN && |pkts[i]| == |pkts[0]|
  }

  /** The host has taken these packets and no others, all as generation 1. */
  ghost predicate GatewayHolds(gw: Gateway, pkts: seq<Packet>) {
    && gw.unprotected == {} && gw.history == (if pkts == [] then [[]] else [[], pkts]) && gw.serial == |gw.history| - 1
    && gw.cur == (if |pkts| == K then [] else pkts)
    && gw.pending == (if |pkts| == K then Some(Batch(1, pkts)) else None)
  }

  lemma HoldsOneMore(gw: Gateway, pkts: seq<Packet>, pkt: Packet)
    requires |pkts| < K && OneSize(pkts + [pkt]) && GatewayHolds(gw, pkts)
    ensures GatewayHolds(OnPacket(gw, pkt), pkts + [pkt])
  {
    assert (pkts + [pkt])[|pkts|] == pkt;
    if pkts != [] {
      assert (pkts + [pkt])[0] == pkts[0];
      assert [[], pkts][1 := pkts + [pkt]] == [[], pkts + [pkt]];
    } else {
      assert pkts + [pkt] == [pkt];
      assert [[]] + [[pkt]] == [[], [pkt]];
    }
  }

  /** The first packets of a run, all of one length, go into generation 1; nothing has reached the receiver. */
  lemma {:induction false} FillFirst(pkts: seq<Packet>, c: Codec, r: nat) returns (evs: seq<Event>, s: System)
    requires Shaped(c, r) && |pkts| <= K && OneSize(pkts)
    ensures s == Run(evs, c, r) && s.fateA == [] && s.fateB == [] && s.arrived == [] && GatewayHolds(s.gw, pkts)
    decreases |pkts|
  {
    if |pkts| == 0 {
      evs := [];
      s := Start();
    } else {
      var before, pkt := pkts[..|pkts| - 1], pkts[|pkts| - 1];
      assert pkts == before + [pkt];
      evs, s := FillFirst(before, c, r);
      UnfoldRun(evs, Intercept(pkt), c, r);
      HoldsOneMore(s.gw, before, pkt);
      evs, s := evs + [Intercept(pkt)], Step(s, Intercept(pkt), c, r);
    }
  }

  lemma TakeNext(s: System, onB: bool, before: seq<bool>, n: nat, c: Codec, r: nat)
    requires Inv(s.gw, c, r) && Fate(s, onB) == before + Repeat(true, n) && |before| + n < |PathLog(s.gw, onB)|
    ensures var s' := Step(s, Take(onB, false), c, r);
      s'.gw == s.gw && Fate(s', !onB) == Fate(s, !onB) && Fate(s', onB) == before + Repeat(true, n + 1)
  {
    assert before + Repeat(true, n) + [true] == before + Repeat(true, n + 1);
  }

  /** The next n fragments of a path arrive; the other path stands still. */
  lemma {:induction false} Drain(evs: seq<Event>, s: System, onB: bool, n: nat, c: Codec, r: nat)
    returns (evs': seq<Event>, s': System)
    requires Shaped(c, r) && s == Run(evs, c, r) && |Fate(s, onB)| + n <= |PathLog(s.gw, onB)|
    ensures s' == Run(evs', c, r) && s'.gw == s.gw
    ensures Fate(s', !onB) == Fate(s, !onB) && Fate(s', onB) == Fate(s, onB) + Repeat(true, n)
  {
    if n == 0 {
      evs', s' := evs, s;
    } else {
      evs', s' := Drain(evs, s, onB, n - 1, c, r);
      TakeNext(s', onB, Fate(s, onB), n - 1, c, r);
      UnfoldRun(evs', Take(onB, false), c, r);
      evs', s' := evs' + [Take(onB, false)], Step(s', Take(onB, false), c, r);
    }
  }

  lemma LoneParityIsLast(gw: Gateway, c: Codec)
    requires Inv(gw, c, 1) && gw.pending.Some?
    ensures var gw' := OnBatchEnd(gw, c, 1);
      gw'.pathA == gw.pathA + [SentParity(c, 1, gw.pending.value, 0)] && gw'.pathB == gw.pathB
  {
    assert SendParity(gw, c, 1, gw.pending.value, 0) == gw;
  }

  /** A run that ends with the lone parity of generation 1 on path A, before anything has arrived. */
  lemma FirstGeneration(c: Codec) returns (evs: seq<Event>, s: System)
    requires Shaped(c, 1)
    ensures s == Run(evs, c, 1) && s.fateA == [] && s.fateB == [] && |s.gw.pathA| > 0
    ensures Matches(s.gw.pathA[|s.gw.pathA| - 1], 1, ParityMark(0))
  {
    evs, s := FillFirst(Repeat<Packet>(Repeat(0, 20), K), c, 1);
    LoneParityIsLast(s.gw, c);
    UnfoldRun(evs, BatchEnd, c, 1);
    evs, s := evs + [BatchEnd], Step(s, BatchEnd, c, 1);
  }

  lemma OvertakenIsInFlight(s: System, c: Codec)
    requires Inv(s.gw, c, 1) && ChannelInv(s) && |s.gw.pathA| > 0
    requires s.fateA == Repeat(true, |s.gw.pathA|) && s.fateB == []
    requires Matches(s.gw.pathA[|s.gw.pathA| - 1], 1, ParityMark(0))
    ensures ParityArrived(s, 1, 1) && InFlight(s, 1, DataMark(1))
  {
    var hp := Hop(false, |s.gw.pathA| - 1);
    assert HopOk(s, hp) && Matches(Item(s, hp), 1, ParityMark(0));
    ParityMeansClosed(s, c, 1, 1, 0, hp);
    assert IsData(s.gw, 1, 1);
    var h := SentSomewhere(s, c, 1, 1, 1);
    ItemIsGenuine(s, c, 1, h);
  }

  /** With a single parity fragment, a run in which it overtakes the data on path B. */
  lemma LoneParityOvertakes(c: Codec) returns (evs: seq<Event>, s: System)
    requires Shaped(c, 1)
    ensures s == Run(evs, c, 1) && ParityArrived(s, 1, 1) && InFlight(s, 1, DataMark(1))
  {
    evs, s := FirstGeneration(c);
    evs, s := Drain(evs, s, false, |s.gw.pathA|, c, 1);
    OvertakenIsInFlight(s, c);
  }

  ghost predicate AlwaysSafe(c: Codec, r: nat)
    requires Shaped(c, r)
  {
    forall evs, serial :: ParityArrived(Run(evs, c, r), r, serial) ==> GateIsSafe(Run(evs, c, r), c, r, serial)
  }

  lemma OtherCountsAreSafe(c: Codec, r: nat)
    requires Shaped(c, r) && r != 1
    ensures AlwaysSafe(c, r)
  {
    forall evs, serial | ParityArrived(Run(evs, c, r), r, serial)
      ensures GateIsSafe(Run(evs, c, r), c, r, serial)
    {
      GateIsSafeInEveryRun(evs, c, r, serial);
    }
  }

  lemma OneParityIsUnsafe(c: Codec)
    requires Shaped(c, 1)
    ensures !AlwaysSafe(c, 1)
  {
    var evs, s := LoneParityOvertakes(c);
    assert !GateIsSafe(s, c, 1, 1);
  }

  /** The all-parity gate is safe in every run exactly when there are at least two parity fragments, or none, so that it
      never opens. */
  lemma GateSafeIffTwoParities(c: Codec, r: nat)
    requires Shaped(c, r)
    ensures AlwaysSafe(c, r) <==> r >= 2 || r == 0
  {
    if r == 1 {
      OneParityIsUnsafe(c);
    } else {
      OtherCountsAreSafe(c, r);
    }
  }

  // ----- how large a receive batch may be

  /** Whatever ran before, a receive batch of n callbacks that starts with an empty pending slot drops no generation. */
  ghost predicate BatchNeverDrops(c: Codec, r: nat, n: nat)
    requires Shaped(c, r)
  {
    forall evs, pkts: seq<Packet> :: |pkts| == n && Run(evs, c, r).gw.pending.None? ==>
      OnPackets(Run(evs, c, r).gw, pkts).dropped == Run(evs, c, r).gw.dropped
  }

  lemma SmallBatchesFit(c: Codec, r: nat, n: nat)
    requires Shaped(c, r) && n <= K
    ensures BatchNeverDrops(c, r, n)
  {
    forall evs, pkts: seq<Packet> | |pkts| == n && Run(evs, c, r).gw.pending.None?
      ensures OnPackets(Run(evs, c, r).gw, pkts).dropped == Run(evs, c, r).gw.dropped
    {
      CallbacksFillSlowly(Run(evs, c, r).gw, pkts, c, r);
    }
  }

  /** A receive batch of n callbacks is safe in every run if and only if n is at most K. */
  lemma BatchNeverDropsIffSmall(c: Codec, r: nat, n: nat)
    requires Shaped(c, r)
    ensures BatchNeverDrops(c, r, n) <==> n <= K
  {
    if n <= K {
      SmallBatchesFit(c, r, n);
    } else {
      var pkt: Packet := Repeat(0, 20);
      var evs, s := FillFirst(Repeat(pkt, K - 1), c, r);
      LargeBatchDrops(s.gw, pkt, n);
      assert |Repeat(pkt, n)| == n;
    }
  }
}
