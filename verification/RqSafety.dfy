/** Whole runs of the RaptorQ receiver. */
module RqSafety {
  import opened Base
  import opened Deliveries
  import opened Wire
  import opened RqBlock
  import opened RqBlockLaws
  import opened RqEntry
  import opened RqTable
  import RqCodec

  // ----- what safety means

  /** Genuine bytes only. */
  ghost predicate Right(outs: seq<Delivery>, src: seq<Packet>) {
    forall k :: 0 <= k < |outs| ==> outs[k].index < |src| && outs[k].pkt == src[outs[k].index]
  }

  /** No source packet successfully twice. */
  ghost predicate Once(outs: seq<Delivery>) {
    forall k, l :: 0 <= k < l < |outs| && outs[k].ok && outs[l].ok ==> outs[k].index != outs[l].index
  }

  ghost predicate AllSent(outs: seq<Delivery>, src: seq<Packet>) {
    RqCodec.ValidSource(src) && forall i :: 0 <= i < |src| ==> Sent(outs, i)
  }

  /** Own bytes, each packet at most once, and finished exactly when all of it has been sent. */
  ghost predicate BlockSafe(outs: seq<Delivery>, finished: bool, src: seq<Packet>) {
    Right(outs, src) && Once(outs) && (finished <==> AllSent(outs, src))
  }

  ghost predicate RunSafe(id: Ideal, src: nat -> seq<Packet>) {
    NoRepeats(id.done) && forall s :: BlockSafe(Of(id.log, s), s in id.done, src(s))
  }

  /** A symbol of a finished block that reaches the destination once more: its id is stored again, and the row is
      missing there or the stored rows decode, and the socket takes what is then sent. */
  ghost predicate Disturbs(id: Ideal, d: Datagram, e: Env)
    requires Takes(id, d) && EnvOk(e)
  {
    var b := Entry(id.slots, d.serial);
    var b1 := Opened(b, d.sym, At(e, d));
    d.serial in id.done && d.sym.esi in b.esis && 0 < b1.k <= K && RepeatLands(b1, d.sym, At(e, d))
  }

  ghost predicate QuietAt(trace: seq<Datagram>, n: nat, src: nat -> seq<Packet>, e: Env)
    requires Setting(src, e) && Genuine(trace, src, e.codec) && n < |trace|
  {
    GenuinePrefix(trace, n, src, e.codec);
    DatagramIsTaken(ReceiveIdeal(trace[..n], src, e), trace[n], src, e);
    !Disturbs(ReceiveIdeal(trace[..n], src, e), trace[n], e)
  }

  /** Along the whole trace, no symbol of a finished block reaches the destination again. */
  ghost predicate Quiet(trace: seq<Datagram>, src: nat -> seq<Packet>, e: Env)
    requires Setting(src, e) && Genuine(trace, src, e.codec)
  {
    forall n :: 0 <= n < |trace| ==> QuietAt(trace, n, src, e)
  }

  // ----- one symbol on the entry of its block

  /** All that was sent for a block so far is what its flags say; once it is finished, all of it has been sent and late
      symbols have flagged nothing. */
  ghost predicate EntrySafe(b: Block, outs: seq<Delivery>, finished: bool, src: seq<Packet>, id: nat) {
    if finished then
      RqCodec.ValidSource(src) && Progress(NoFlags(), outs, FullFlags(|src|), src, id) && b.forwarded == NoFlags()
    else
      Progress(NoFlags(), outs, b.forwarded, src, id)
  }

  /** Sends that the socket refused leave the flags of a complete block as they are. */
  lemma RefusedProgress(outs: seq<Delivery>, f0: seq<bool>, f1: seq<bool>, src: seq<Packet>, id: nat)
    requires Progress(f0, outs, f1, src, id) && |src| <= K && !(exists i :: 0 <= i < |src| && Sent(outs, i))
    ensures Progress(FullFlags(|src|), outs, FullFlags(|src|), src, id)
  {
    forall k | 0 <= k < |outs| && outs[k].ok
      ensures false
    {
      assert Sent(outs, outs[k].index);
    }
  }

  lemma LateEntryIsSafe(b: Block, st: Stats, outs: seq<Delivery>, sym: Symbol, id: nat, src: seq<Packet>, e: Env)
    requires Fit(src, e) && EntryOk(b, id, src, e.codec) && SymbolOf(sym, id, src, e.codec)
    requires EntrySafe(b, outs, true, src, id)
    ensures Usable(sym) && StaysInBuffer(b, sym)
    ensures var b1, w := Opened(b, sym, e), Handled(b, st, sym, true, e);
      !(sym.esi in b.esis && RepeatLands(b1, sym, e)) ==> !w.finished && EntrySafe(w.block, outs + w.log, true, src, id)
  {
    OpenedIsOk(b, sym, id, src, e);
    LateSymbolLandsIff(b, st, sym, id, src, e);
    SymbolProgresses(b, st, sym, true, id, src, e);
    var b1, w := Opened(b, sym, e), Handled(b, st, sym, true, e);
    if !(sym.esi in b.esis && RepeatLands(b1, sym, e)) {
      RefusedProgress(w.log, b.forwarded, EndFlags(w, |src|), src, id);
      ProgressJoins(NoFlags(), outs, FullFlags(|src|), w.log, FullFlags(|src|), src, id);
    }
  }

  lemma LiveEntryIsSafe(b: Block, st: Stats, outs: seq<Delivery>, sym: Symbol, id: nat, src: seq<Packet>, e: Env)
    requires Fit(src, e) && EntryOk(b, id, src, e.codec) && SymbolOf(sym, id, src, e.codec)
    requires EntrySafe(b, outs, false, src, id)
    ensures Usable(sym) && StaysInBuffer(b, sym)
    ensures var w := Handled(b, st, sym, false, e); EntrySafe(w.block, outs + w.log, w.finished, src, id)
  {
    SymbolProgresses(b, st, sym, false, id, src, e);
    var w := Handled(b, st, sym, false, e);
    ProgressJoins(NoFlags(), outs, b.forwarded, w.log, EndFlags(w, |src|), src, id);
  }

  // ----- whole runs

  ghost predicate EntryIsSafe(id: Ideal, s: nat, src: nat -> seq<Packet>) {
    EntrySafe(Entry(id.slots, s), Of(id.log, s), s in id.done, src(s), WireId(s))
  }

  ghost predicate AllSafe(id: Ideal, src: nat -> seq<Packet>) {
    NoRepeats(id.done) && forall s :: EntryIsSafe(id, s, src)
  }

  lemma SafeAtStart(src: nat -> seq<Packet>)
    ensures AllSafe(Ideal(map[], [], NoStats(), []), src)
  {
    forall s: nat
      ensures EntryIsSafe(Ideal(map[], [], NoStats(), []), s, src)
    {
      NoProgress(NoFlags(), src(s), WireId(s));
    }
  }

  lemma IdealByResult(id: Ideal, d: Datagram, e: Env, s: nat)
    requires Takes(id, d) && EnvOk(e)
    ensures var id', w := OnIdeal(id, d, e), Result(id, d, e);
      && Entry(id'.slots, s) == (if s == d.serial then w.block else Entry(id.slots, s))
      && Of(id'.log, s) == (if s == d.serial then Of(id.log, s) + w.log else Of(id.log, s))
      && (s in id'.done <==> s in id.done || (s == d.serial && w.finished))
  {
    OfTagged(id.log, d.serial, Result(id, d, e).log, s);
  }

  lemma OwnEntryIsSafe(id: Ideal, d: Datagram, src: nat -> seq<Packet>, e: Env)
    requires Setting(src, e) && GenuineDatagram(d, src, e.codec) && IdealOk(id, src, e.codec) && Takes(id, d)
    requires EntryIsSafe(id, d.serial, src) && !Disturbs(id, d, e)
    ensures EntryIsSafe(OnIdeal(id, d, e), d.serial, src)
    ensures Result(id, d, e).finished ==> d.serial !in id.done
  {
    var s, b, st, outs := d.serial, Entry(id.slots, d.serial), CountFragment(id.stats, d.sym), Of(id.log, d.serial);
    EntryIsOk(id, s, src, e.codec);
    IdealByResult(id, d, e, s);
    if s in id.done {
      OpenedIsOk(b, d.sym, WireId(s), src(s), At(e, d));
      LateEntryIsSafe(b, st, outs, d.sym, WireId(s), src(s), At(e, d));
    } else {
      LiveEntryIsSafe(b, st, outs, d.sym, WireId(s), src(s), At(e, d));
    }
  }

  lemma StepIsSafe(id: Ideal, d: Datagram, src: nat -> seq<Packet>, e: Env)
    requires Setting(src, e) && GenuineDatagram(d, src, e.codec) && IdealOk(id, src, e.codec) && Takes(id, d)
    requires AllSafe(id, src) && !Disturbs(id, d, e)
    ensures AllSafe(OnIdeal(id, d, e), src)
  {
    assert EntryIsSafe(id, d.serial, src);
    OwnEntryIsSafe(id, d, src, e);
    forall s: nat
      ensures EntryIsSafe(OnIdeal(id, d, e), s, src)
    {
      assert EntryIsSafe(id, s, src);
      IdealByResult(id, d, e, s);
    }
    if Result(id, d, e).finished {
      StillNoRepeats(id.done, d.serial);
    }
  }

  lemma QuietPrefix(before: seq<Datagram>, after: seq<Datagram>, d: Datagram, n: nat, src: nat -> seq<Packet>, e: Env)
    requires Setting(src, e) && Genuine(before, src, e.codec) && Genuine(after, src, e.codec)
    requires after == before + [d] && n < |before|
    ensures QuietAt(after, n, src, e) <==> QuietAt(before, n, src, e)
  {
    assert after[..n] == before[..n] && after[n] == before[n];
  }

  lemma QuietPrefixes(before: seq<Datagram>, after: seq<Datagram>, d: Datagram, src: nat -> seq<Packet>, e: Env)
    requires Setting(src, e) && Genuine(before, src, e.codec) && Genuine(after, src, e.codec)
    requires after == before + [d]
    ensures Quiet(after, src, e) <==> Quiet(before, src, e) && QuietAt(after, |before|, src, e)
  {
    forall n | 0 <= n < |before|
      ensures QuietAt(after, n, src, e) <==> QuietAt(before, n, src, e)
    {
      QuietPrefix(before, after, d, n, src, e);
    }
  }

  lemma LastIsQuiet(before: seq<Datagram>, d: Datagram, src: nat -> seq<Packet>, e: Env)
    requires Setting(src, e) && Genuine(before, src, e.codec) && Genuine(before + [d], src, e.codec)
    requires Takes(ReceiveIdeal(before, src, e), d)
    ensures QuietAt(before + [d], |before|, src, e) <==> !Disturbs(ReceiveIdeal(before, src, e), d, e)
  {
    var trace := before + [d];
    assert trace[..|before|] == before && trace[|before|] == d;
  }

  /** A trace is quiet exactly if what came before its last datagram is, and that one disturbs nothing. */
  lemma QuietLast(before: seq<Datagram>, d: Datagram, src: nat -> seq<Packet>, e: Env)
    requires Setting(src, e) && Genuine(before, src, e.codec) && Genuine(before + [d], src, e.codec)
    requires Takes(ReceiveIdeal(before, src, e), d)
    ensures Quiet(before + [d], src, e) <==> Quiet(before, src, e) && !Disturbs(ReceiveIdeal(before, src, e), d, e)
  {
    LastIsQuiet(before, d, src, e);
    QuietPrefixes(before, before + [d], d, src, e);
  }

  lemma {:induction false} QuietRunIsSafe(trace: seq<Datagram>, src: nat -> seq<Packet>, e: Env)
    requires Setting(src, e) && Genuine(trace, src, e.codec) && Quiet(trace, src, e)
    ensures AllSafe(ReceiveIdeal(trace, src, e), src)
    decreases |trace|
  {
    if |trace| == 0 {
      SafeAtStart(src);
    } else {
      var before, d := trace[..|trace| - 1], trace[|trace| - 1];
      GenuineLast(trace, src, e.codec);
      assert trace == before + [d];
      UnfoldIdeal(before, d, src, e);
      QuietLast(before, d, src, e);
      QuietRunIsSafe(before, src, e);
      StepIsSafe(ReceiveIdeal(before, src, e), d, src, e);
    }
  }

  lemma EntryTells(b: Block, outs: seq<Delivery>, finished: bool, src: seq<Packet>, id: nat, c: RqCodec.Codec)
    requires EntrySafe(b, outs, finished, src, id) && EntryOk(b, id, src, c)
    ensures BlockSafe(outs, finished, src)
  {
    if finished {
      forall j | 0 <= j < |src|
        ensures Sent(outs, j)
      {
        assert FullFlags(|src|)[j];
      }
    } else if RqCodec.ValidSource(src) {
      var j :| 0 <= j < |src| && !b.forwarded[j];
      assert !Sent(outs, j);
    }
  }

  lemma AllSafeTells(id: Ideal, src: nat -> seq<Packet>, c: RqCodec.Codec)
    requires AllSafe(id, src) && IdealOk(id, src, c)
    ensures RunSafe(id, src)
  {
    forall s: nat
      ensures BlockSafe(Of(id.log, s), s in id.done, src(s))
    {
      assert EntryIsSafe(id, s, src);
      EntryIsOk(id, s, src, c);
      EntryTells(Entry(id.slots, s), Of(id.log, s), s in id.done, src(s), WireId(s), c);
    }
  }

  // ----- why the condition is exact

  /** A finished block's packet is sent a second time. */
  lemma SecondTime(outs: seq<Delivery>, more: seq<Delivery>, i: nat)
    requires Sent(outs, i) && Sent(more, i)
    ensures !Once(outs + more)
  {
    var k :| 0 <= k < |outs| && outs[k].ok && outs[k].index == i;
    var l :| 0 <= l < |more| && more[l].ok && more[l].index == i;
    assert (outs + more)[k] == outs[k] && (outs + more)[|outs| + l] == more[l];
  }

  lemma DisturbanceShows(id: Ideal, d: Datagram, src: nat -> seq<Packet>, e: Env)
    requires Setting(src, e) && GenuineDatagram(d, src, e.codec) && IdealOk(id, src, e.codec) && Takes(id, d)
    requires Disturbs(id, d, e) && RunSafe(id, src)
    ensures !Once(Of(OnIdeal(id, d, e).log, d.serial))
  {
    var s, b := d.serial, Entry(id.slots, d.serial);
    EntryIsOk(id, s, src, e.codec);
    IdealByResult(id, d, e, s);
    OpenedIsOk(b, d.sym, WireId(s), src(s), At(e, d));
    LateSymbolLandsIff(b, CountFragment(id.stats, d.sym), d.sym, WireId(s), src(s), At(e, d));
    assert BlockSafe(Of(id.log, s), s in id.done, src(s));
    var i :| 0 <= i < |src(s)| && Sent(Result(id, d, e).log, i);
    SecondTime(Of(id.log, s), Result(id, d, e).log, i);
  }

  lemma TwiceStaysTwice(outs: seq<Delivery>, more: seq<Delivery>)
    requires !Once(outs)
    ensures !Once(outs + more)
  {
    var k, l :| 0 <= k < l < |outs| && outs[k].ok && outs[l].ok && outs[k].index == outs[l].index;
    assert (outs + more)[k] == outs[k] && (outs + more)[l] == outs[l];
  }

  lemma TwiceRemains(id: Ideal, d: Datagram, e: Env, s: nat)
    requires Takes(id, d) && EnvOk(e) && !Once(Of(id.log, s))
    ensures !Once(Of(OnIdeal(id, d, e).log, s))
  {
    IdealByResult(id, d, e, s);
    TwiceStaysTwice(Of(id.log, s), Result(id, d, e).log);
  }

  lemma {:induction false} DisturbedRunShows(trace: seq<Datagram>, src: nat -> seq<Packet>, e: Env)
    requires Setting(src, e) && Genuine(trace, src, e.codec) && !Quiet(trace, src, e)
    ensures exists s :: !Once(Of(ReceiveIdeal(trace, src, e).log, s))
    decreases |trace|
  {
    var before, d := trace[..|trace| - 1], trace[|trace| - 1];
    GenuineLast(trace, src, e.codec);
    assert trace == before + [d];
    UnfoldIdeal(before, d, src, e);
    QuietLast(before, d, src, e);
    var id := ReceiveIdeal(before, src, e);
    if Quiet(before, src, e) {
      QuietRunIsSafe(before, src, e);
      AllSafeTells(id, src, e.codec);
      DisturbanceShows(id, d, src, e);
    } else {
      DisturbedRunShows(before, src, e);
      var s :| !Once(Of(id.log, s));
      TwiceRemains(id, d, e, s);
    }
  }

  /** Safety of whole runs, with its exact condition. On every genuine trace, repeats, clock and socket verdicts
      included: each source packet reaches the destination at most once with its own bytes, and a block is finished
      at most once, exactly when all its packets have been sent, if and only if no symbol of a finished block lands
      once more. */
  lemma SafeIffQuiet(trace: seq<Datagram>, src: nat -> seq<Packet>, e: Env)
    requires Setting(src, e) && Genuine(trace, src, e.codec)
    ensures RunSafe(ReceiveIdeal(trace, src, e), src) <==> Quiet(trace, src, e)
  {
    if Quiet(trace, src, e) {
      QuietRunIsSafe(trace, src, e);
      AllSafeTells(ReceiveIdeal(trace, src, e), src, e.codec);
    } else {
      DisturbedRunShows(trace, src, e);
      var s :| !Once(Of(ReceiveIdeal(trace, src, e).log, s));
      assert !BlockSafe(Of(ReceiveIdeal(trace, src, e).log, s), s in ReceiveIdeal(trace, src, e).done, src(s));
    }
  }

  /** The same of the receiver with its 1024 slots and its bounded list: what it sends is, block by block, a safe run
      exactly if the trace is quiet, and then its list of finished blocks is that run's. */
  lemma ReceiverIsSafe(trace: seq<Datagram>, src: nat -> seq<Packet>, e: Env)
    requires Setting(src, e) && Genuine(trace, src, e.codec) && Separate(trace, src, e)
    requires |ReceiveIdeal(trace, src, e).done| <= MAX_BLOCKS
    ensures Accepted(Inputs(trace), e)
    ensures var rx, id := Receive(Inputs(trace), e), ReceiveIdeal(trace, src, e);
      && rx.log == Untag(id.log) && rx.done == WireIds(id.done)
      && (RunSafe(id, src) <==> Quiet(trace, src, e))
  {
    TableRefinesMap(trace, src, e);
    SafeIffQuiet(trace, src, e);
  }

  /** On any history: a further symbol of a finished block is handed to the socket exactly if its id is stored again and
      its row is missing there or the stored rows decode; unless it lands, the finished blocks stay as they are. */
  lemma LateSymbolsAreSilent(before: seq<Datagram>, d: Datagram, src: nat -> seq<Packet>, e: Env)
    requires Setting(src, e) && Genuine(before, src, e.codec) && GenuineDatagram(d, src, e.codec)
    requires d.serial in ReceiveIdeal(before, src, e).done
    ensures Genuine(before + [d], src, e.codec) && Takes(ReceiveIdeal(before, src, e), d)
    ensures var id, id' := ReceiveIdeal(before, src, e), ReceiveIdeal(before + [d], src, e);
      var b, b1 := Entry(id.slots, d.serial), Opened(Entry(id.slots, d.serial), d.sym, At(e, d));
      && 0 < b1.k <= K
      && (id'.log != id.log <==> d.sym.esi in b.esis && RepeatSpeaks(b1, d.sym, e.codec))
      && (!Disturbs(id, d, e) ==> id'.done == id.done)
  {
    UnfoldIdeal(before, d, src, e);
    var id, s := ReceiveIdeal(before, src, e), d.serial;
    var b, st := Entry(id.slots, s), CountFragment(id.stats, d.sym);
    EntryIsOk(id, s, src, e.codec);
    OpenedIsOk(b, d.sym, WireId(s), src(s), At(e, d));
    LateSymbolSpeaksIff(b, st, d.sym, WireId(s), src(s), At(e, d));
    LateSymbolLandsIff(b, st, d.sym, WireId(s), src(s), At(e, d));
    assert |id.log + TagAll(s, Result(id, d, e).log)| == |id.log| + |Result(id, d, e).log|;
    assert Result(id, d, e).log == [] ==> id.log + TagAll(s, Result(id, d, e).log) == id.log;
  }

  // ----- traces without repeats, and repeats that do and do not matter

  /** Which symbols of a block have arrived. */
  ghost function EsisOf(trace: seq<Datagram>, s: nat): set<nat> {
    set k | 0 <= k < |trace| && trace[k].serial == s :: trace[k].sym.esi
  }

  lemma EsisGrow(before: seq<Datagram>, d: Datagram, s: nat)
    ensures EsisOf(before + [d], s) == EsisOf(before, s) + if d.serial == s then {d.sym.esi} else {}
  {
    var after := before + [d];
    forall x | x in EsisOf(before, s)
      ensures x in EsisOf(after, s)
    {
      var k :| 0 <= k < |before| && before[k].serial == s && before[k].sym.esi == x;
      assert after[k] == before[k];
    }
    assert after[|before|] == d;
  }

  /** No symbol of a block arrives twice. */
  ghost predicate Distinct(trace: seq<Datagram>) {
    forall k, l :: 0 <= k < l < |trace| && trace[k].serial == trace[l].serial ==> trace[k].sym.esi != trace[l].sym.esi
  }

  ghost predicate StoredAreSeen(id: Ideal, trace: seq<Datagram>, s: nat) {
    forall x :: x in Entry(id.slots, s).esis ==> x in EsisOf(trace, s)
  }

  lemma {:induction false} StoredWasSeen(trace: seq<Datagram>, s: nat, src: nat -> seq<Packet>, e: Env)
    requires Setting(src, e) && Genuine(trace, src, e.codec)
    ensures StoredAreSeen(ReceiveIdeal(trace, src, e), trace, s)
    decreases |trace|
  {
    if |trace| == 0 {
    } else {
      var before, d := trace[..|trace| - 1], trace[|trace| - 1];
      GenuineLast(trace, src, e.codec);
      assert trace == before + [d];
      StoredWasSeen(before, s, src, e);
      UnfoldIdeal(before, d, src, e);
      EsisGrow(before, d, s);
      var id := ReceiveIdeal(before, src, e);
      EntryIsOk(id, d.serial, src, e.codec);
      IdealByResult(id, d, e, s);
      SymbolProgresses(Entry(id.slots, d.serial), CountFragment(id.stats, d.sym), d.sym, d.serial in id.done,
                       WireId(d.serial), src(d.serial), At(e, d));
    }
  }

  lemma NewSymbolIsQuiet(trace: seq<Datagram>, n: nat, src: nat -> seq<Packet>, e: Env)
    requires Setting(src, e) && Genuine(trace, src, e.codec) && n < |trace|
    requires trace[n].sym.esi !in EsisOf(trace[..n], trace[n].serial)
    ensures QuietAt(trace, n, src, e)
  {
    GenuinePrefix(trace, n, src, e.codec);
    StoredWasSeen(trace[..n], trace[n].serial, src, e);
  }

  lemma DistinctIsNew(trace: seq<Datagram>, n: nat)
    requires Distinct(trace) && n < |trace|
    ensures trace[n].sym.esi !in EsisOf(trace[..n], trace[n].serial)
  {
  }

  /** Traces that repeat nothing are quiet, so their runs are safe. */
  lemma DistinctIsSafe(trace: seq<Datagram>, src: nat -> seq<Packet>, e: Env)
    requires Setting(src, e) && Genuine(trace, src, e.codec) && Distinct(trace)
    ensures Quiet(trace, src, e) && RunSafe(ReceiveIdeal(trace, src, e), src)
  {
    forall n | 0 <= n < |trace|
      ensures QuietAt(trace, n, src, e)
    {
      DistinctIsNew(trace, n);
      NewSymbolIsQuiet(trace, n, src, e);
    }
    SafeIffQuiet(trace, src, e);
  }

  ghost predicate OnePacketBlock(d: Datagram, src: nat -> seq<Packet>, e: Env) {
    && Setting(src, e) && GenuineDatagram(d, src, e.codec) && |src(d.serial)| == 1 && d.sym.esi == 0
    && forall i, original :: d.accepts(i, original)
  }

  lemma OnlyPacketFinishes(st: Stats, sym: Symbol, id: nat, src: seq<Packet>, e: Env)
    requires Fit(src, e) && SymbolOf(sym, id, src, e.codec) && |src| == 1 && sym.esi == 0 && e.accepts(0, true)
    ensures Usable(sym) && StaysInBuffer(BlankBlock(), sym)
    ensures var w := Handled(BlankBlock(), st, sym, false, e); w.finished && w.block == BlankBlock()
  {
    BlankIsOk(id, src, e.codec);
    NotedIsOk(BlankBlock(), sym, id, src, e);
    WorkedIsOk(BlankBlock(), st, sym, id, src, e);
    Outcome(BlankBlock(), st, sym, false, e);
    WorkLands(World(Noted(BlankBlock(), sym, e), st, [], false), sym, id, src, e);
    FlagsMoveByOk(NoFlags(), Worked(BlankBlock(), st, sym, e).log, Worked(BlankBlock(), st, sym, e).block.forwarded,
                  src, id);
  }

  /** The first copy finishes the block. */
  lemma FirstCopyFinishes(id: Ideal, d: Datagram, src: nat -> seq<Packet>, e: Env)
    requires OnePacketBlock(d, src, e) && Takes(id, d)
    requires Entry(id.slots, d.serial) == BlankBlock() && d.serial !in id.done
    ensures var id' := OnIdeal(id, d, e);
      !Disturbs(id, d, e) && d.serial in id'.done && Entry(id'.slots, d.serial) == BlankBlock()
  {
    GenuineIsFit(d, src, e);
    IdealByResult(id, d, e, d.serial);
    OnlyPacketFinishes(CountFragment(id.stats, d.sym), d.sym, WireId(d.serial), src(d.serial), At(e, d));
  }

  lemma LateCopyIsStored(st: Stats, sym: Symbol, id: nat, src: seq<Packet>, e: Env)
    requires Fit(src, e) && SymbolOf(sym, id, src, e.codec)
    ensures Usable(sym) && StaysInBuffer(BlankBlock(), sym)
    ensures var w := Handled(BlankBlock(), st, sym, true, e);
      !w.finished && w.block.inUse && w.block.esis == [sym.esi] && w.block.forwarded == NoFlags()
  {
    BlankIsOk(id, src, e.codec);
    OpenedIsOk(BlankBlock(), sym, id, src, e);
    NotedIsOk(BlankBlock(), sym, id, src, e);
    Outcome(BlankBlock(), st, sym, true, e);
    assert Noted(BlankBlock(), sym, e).esis == [sym.esi];
  }

  /** The second copy is stored in a new record, and nothing else. */
  lemma SecondCopyIsStored(id: Ideal, d: Datagram, src: nat -> seq<Packet>, e: Env)
    requires OnePacketBlock(d, src, e) && IdealOk(id, src, e.codec) && Takes(id, d)
    requires Entry(id.slots, d.serial) == BlankBlock() && d.serial in id.done
    ensures var b' := Entry(OnIdeal(id, d, e).slots, d.serial);
      !Disturbs(id, d, e) && b'.inUse && b'.esis == [0] && b'.forwarded == NoFlags()
    ensures d.serial in OnIdeal(id, d, e).done
  {
    GenuineIsFit(d, src, e);
    IdealByResult(id, d, e, d.serial);
    LateCopyIsStored(CountFragment(id.stats, d.sym), d.sym, WireId(d.serial), src(d.serial), At(e, d));
  }

  /** The third copy disturbs. */
  lemma ThirdCopyDisturbs(id: Ideal, d: Datagram, src: nat -> seq<Packet>, e: Env)
    requires OnePacketBlock(d, src, e) && IdealOk(id, src, e.codec) && Takes(id, d) && d.serial in id.done
    requires var b := Entry(id.slots, d.serial); b.inUse && b.esis == [0] && b.forwarded == NoFlags()
    ensures Disturbs(id, d, e)
  {
    EntryIsOk(id, d.serial, src, e.codec);
    OpenedIsOk(Entry(id.slots, d.serial), d.sym, WireId(d.serial), src(d.serial), At(e, d));
  }

  lemma OneMoreCopy(before: seq<Datagram>, after: seq<Datagram>, id: Ideal, d: Datagram, src: nat -> seq<Packet>,
                    e: Env)
      returns (id': Ideal)
    requires Setting(src, e) && GenuineDatagram(d, src, e.codec) && Genuine(before, src, e.codec)
    requires id == ReceiveIdeal(before, src, e) && after == before + [d]
    ensures Genuine(after, src, e.codec) && Takes(id, d)
    ensures id' == ReceiveIdeal(after, src, e) == OnIdeal(id, d, e)
    ensures Quiet(after, src, e) <==> Quiet(before, src, e) && !Disturbs(id, d, e)
  {
    UnfoldIdeal(before, d, src, e);
    QuietLast(before, d, src, e);
    id' := ReceiveIdeal(after, src, e);
  }

  /** A block of one packet: a second copy of its symbol is harmless, a third is handed on again. */
  lemma TriplicateIsForwardedAgain(d: Datagram, src: nat -> seq<Packet>, e: Env)
    requires OnePacketBlock(d, src, e)
    ensures Genuine([d, d], src, e.codec) && Genuine([d, d, d], src, e.codec)
    ensures RunSafe(ReceiveIdeal([d, d], src, e), src) && !RunSafe(ReceiveIdeal([d, d, d], src, e), src)
  {
    var one, two, three := [d], [d, d], [d, d, d];
    assert one == [] + [d] && two == one + [d] && three == two + [d];
    var id0 := ReceiveIdeal([], src, e);
    FirstCopyFinishes(id0, d, src, e);
    var id1 := OneMoreCopy([], one, id0, d, src, e);
    SecondCopyIsStored(id1, d, src, e);
    var id2 := OneMoreCopy(one, two, id1, d, src, e);
    ThirdCopyDisturbs(id2, d, src, e);
    var id3 := OneMoreCopy(two, three, id2, d, src, e);
    SafeIffQuiet(two, src, e);
    SafeIffQuiet(three, src, e);
  }
}
