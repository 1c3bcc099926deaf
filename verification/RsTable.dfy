/** The receiver's 256-slot table against an unbounded table with one entry per generation. */
module RsTable {
  import opened Base
  import opened Deliveries
  import opened RsCodec
  import opened Wire
  import opened RsSlot

  const MAX_GENS: nat := 256

  /** The receiver: direct-mapped table, counters, and everything handed to the raw socket. */
  datatype Receiver = Receiver(table: seq<Slot>, stats: Stats, log: seq<Delivery>)

  ghost predicate ValidReceiver(rx: Receiver) {
    |rx.table| == MAX_GENS && forall k :: 0 <= k < MAX_GENS ==> WellSized(rx.table[k])
  }

  function NoStats(): Stats {
    Stats(0, 0, 0, 0, 0, 0, 0, SendTotals(0, 0, 0, 0), 0, 0, 0)
  }

  function EmptyReceiver(): (rx: Receiver)
    ensures ValidReceiver(rx)
  {
    Receiver(Repeat(BlankSlot(), MAX_GENS), NoStats(), [])
  }

  /** One datagram from either input socket. */
  function OnDatagram(rx: Receiver, buf: seq<Byte>, e: Env): (rx': Receiver)
    requires ValidReceiver(rx) && EnvOk(e)
    ensures ValidReceiver(rx')
  {
    match Parse(buf)
    case None => rx
    case Some(f) =>
      if !Acceptable(f) then rx
      else
        var k := f.genId % MAX_GENS;
        var w := OnFragment(World(rx.table[k], rx.stats, []), f, e);
        Receiver(rx.table[k := w.slot], w.stats, rx.log + w.log)
  }

  /** A datagram with the unwrapped number of its generation and the surroundings of its handling. */
  datatype Datagram = Datagram(serial: nat, frag: Fragment, now: nat, accepts: nat -> bool)

  function At(e: Env, d: Datagram): Env {
    e.(now := d.now, accepts := d.accepts)
  }

  ghost predicate Wellformed(d: Datagram) {
    d.frag.genId == WireId(d.serial) && Sendable(d.frag) && Acceptable(d.frag)
  }

  ghost predicate AllWellformed(trace: seq<Datagram>) {
    forall k :: 0 <= k < |trace| ==> Wellformed(trace[k])
  }

  function Receive(trace: seq<Datagram>, e: Env): (rx: Receiver)
    requires EnvOk(e) && AllWellformed(trace)
    ensures ValidReceiver(rx)
  {
    if |trace| == 0 then EmptyReceiver()
    else
      var n := |trace| - 1;
      assert Wellformed(trace[n]);
      OnDatagram(Receive(trace[..n], e), Serialize(trace[n].frag), At(e, trace[n]))
  }

  // ----- the unbounded reference

  /** One slot for every generation ever seen; the log remembers which generation a delivery belongs to. */
  datatype Ideal = Ideal(slots: map<nat, Slot>, stats: Stats, log: seq<(nat, Delivery)>)

  ghost predicate ValidIdeal(id: Ideal) {
    forall s :: s in id.slots ==> WellSized(id.slots[s])
  }

  function Entry(slots: map<nat, Slot>, s: nat): Slot {
    if s in slots then slots[s] else BlankSlot()
  }

  function OnIdeal(id: Ideal, d: Datagram, e: Env): (id': Ideal)
    requires ValidIdeal(id) && EnvOk(e) && Wellformed(d)
    ensures ValidIdeal(id')
  {
    var w := OnFragment(World(Entry(id.slots, d.serial), id.stats, []), d.frag, At(e, d));
    Ideal(id.slots[d.serial := w.slot], w.stats, id.log + TagAll(d.serial, w.log))
  }

  function ReceiveIdeal(trace: seq<Datagram>, e: Env): (id: Ideal)
    requires EnvOk(e) && AllWellformed(trace)
    ensures ValidIdeal(id)
  {
    if |trace| == 0 then Ideal(map[], NoStats(), [])
    else
      var n := |trace| - 1;
      assert Wellformed(trace[n]);
      OnIdeal(ReceiveIdeal(trace[..n], e), trace[n], e)
  }

  // ----- when the two agree

  function SlotIndex(serial: nat): nat {
    WireId(serial) % MAX_GENS
  }

  /** The generation that used slot k last. */
  function LastUser(trace: seq<Datagram>, k: nat): Option<nat> {
    if |trace| == 0 then None
    else
      var d := trace[|trace| - 1];
      if SlotIndex(d.serial) == k then Some(d.serial) else LastUser(trace[..|trace| - 1], k)
  }

  function Serials(trace: seq<Datagram>): set<nat> {
    set k | 0 <= k < |trace| :: trace[k].serial
  }

  /** Generations that share a slot do not interleave, and a newcomer's 16-bit id differs from the one it evicts. */
  ghost predicate Orderly(trace: seq<Datagram>) {
    forall n :: 0 <= n < |trace| ==> Fits(trace[..n], trace[n].serial)
  }

  ghost predicate Fits(before: seq<Datagram>, serial: nat) {
    match LastUser(before, SlotIndex(serial))
    case None => true
    case Some(u) => u == serial || (serial !in Serials(before) && WireId(u) != WireId(serial))
  }

  ghost predicate SlotAgrees(rx: Receiver, id: Ideal, k: nat, user: Option<nat>)
    requires ValidReceiver(rx) && k < MAX_GENS
  {
    if user.None? then rx.table[k] == BlankSlot()
    else
      && user.value in id.slots
      && rx.table[k] == id.slots[user.value]
      && rx.table[k].inUse && rx.table[k].genId == WireId(user.value)
  }

  ghost predicate Agree(rx: Receiver, id: Ideal, trace: seq<Datagram>) {
    && ValidReceiver(rx)
    && rx.stats == id.stats && rx.log == Untag(id.log)
    && id.slots.Keys == Serials(trace)
    && forall k :: 0 <= k < MAX_GENS ==> SlotAgrees(rx, id, k, LastUser(trace, k))
  }

  /** A slot that does not hold the fragment's generation is as good as a blank one. */
  lemma WipedIsBlank(s: Slot, st: Stats, f: Fragment, e: Env)
    requires WellSized(s) && Acceptable(f) && EnvOk(e) && !(s.inUse && s.genId == f.genId)
    ensures OnFragment(World(s, st, []), f, e) == OnFragment(World(BlankSlot(), st, []), f, e)
  {
    assert Lookup(World(s, st, []), f, e) == Lookup(World(BlankSlot(), st, []), f, e);
  }

  lemma SlotsDivideWords(serial: nat)
    ensures SlotIndex(serial) == serial % MAX_GENS
  {
    assert serial == 256 * (256 * (serial / UINT16)) + serial % UINT16;
  }

  lemma {:induction false} LastUserIsKnown(trace: seq<Datagram>, k: nat)
    ensures LastUser(trace, k).Some? ==>
      LastUser(trace, k).value in Serials(trace) && SlotIndex(LastUser(trace, k).value) == k
  {
    if |trace| == 0 {
    } else {
      var n := |trace| - 1;
      LastUserIsKnown(trace[..n], k);
      assert trace[n].serial in Serials(trace);
      assert forall j :: 0 <= j < n ==> trace[..n][j].serial == trace[j].serial;
    }
  }

  /** Table and map hand the same slot, up to what the handler wipes anyway, to the handler. */
  lemma SameOutcome(rx: Receiver, id: Ideal, before: seq<Datagram>, d: Datagram, e: Env)
    requires ValidIdeal(id) && EnvOk(e) && Wellformed(d) && Agree(rx, id, before) && Fits(before, d.serial)
    ensures OnFragment(World(rx.table[SlotIndex(d.serial)], rx.stats, []), d.frag, e) ==
            OnFragment(World(Entry(id.slots, d.serial), id.stats, []), d.frag, e)
  {
    var k := SlotIndex(d.serial);
    var user := LastUser(before, k);
    assert SlotAgrees(rx, id, k, user);
    NotUsedNotSeen(before, d.serial);
    if user != Some(d.serial) {
      WipedIsBlank(rx.table[k], rx.stats, d.frag, e);
    }
  }

  lemma OtherSlotsAgree(rx: Receiver, id: Ideal, before: seq<Datagram>, d: Datagram, s: Slot, st: Stats,
                        log: seq<Delivery>, log': seq<(nat, Delivery)>, j: nat)
    requires Agree(rx, id, before) && j < MAX_GENS && j != SlotIndex(d.serial) && WellSized(s)
    ensures var k := SlotIndex(d.serial);
      SlotAgrees(Receiver(rx.table[k := s], st, log), Ideal(id.slots[d.serial := s], st, log'), j,
                 LastUser(before + [d], j))
  {
    assert (before + [d])[..|before|] == before;
    LastUserIsKnown(before, j);
    assert SlotAgrees(rx, id, j, LastUser(before, j));
  }

  lemma StepAgrees(rx: Receiver, id: Ideal, before: seq<Datagram>, d: Datagram, e: Env)
    requires ValidIdeal(id) && EnvOk(e) && Wellformed(d) && Agree(rx, id, before) && Fits(before, d.serial)
    ensures Agree(OnDatagram(rx, Serialize(d.frag), At(e, d)), OnIdeal(id, d, e), before + [d])
  {
    FragmentRoundTrip(d.frag);
    var k, e', after := SlotIndex(d.serial), At(e, d), before + [d];
    SameOutcome(rx, id, before, d, e');
    var w := OnFragment(World(rx.table[k], rx.stats, []), d.frag, e');
    var rx' := Receiver(rx.table[k := w.slot], w.stats, rx.log + w.log);
    var id' := Ideal(id.slots[d.serial := w.slot], w.stats, id.log + TagAll(d.serial, w.log));
    assert rx' == OnDatagram(rx, Serialize(d.frag), e') && id' == OnIdeal(id, d, e);
    UntagAppends(id.log, d.serial, w.log);
    SerialsGrow(before, d);
    forall j | 0 <= j < MAX_GENS
      ensures SlotAgrees(rx', id', j, LastUser(after, j))
    {
      if j != k {
        OtherSlotsAgree(rx, id, before, d, w.slot, w.stats, rx'.log, id'.log, j);
      }
    }
  }

  lemma SerialsGrow(before: seq<Datagram>, d: Datagram)
    ensures Serials(before + [d]) == Serials(before) + {d.serial}
  {
    var after := before + [d];
    forall s | s in Serials(before)
      ensures s in Serials(after)
    {
      var k :| 0 <= k < |before| && before[k].serial == s;
      assert after[k].serial == s;
    }
    assert after[|before|].serial == d.serial;
  }

  lemma {:induction false} NotUsedNotSeen(trace: seq<Datagram>, serial: nat)
    ensures LastUser(trace, SlotIndex(serial)).None? ==> serial !in Serials(trace)
  {
    if |trace| == 0 {
    } else {
      var n := |trace| - 1;
      NotUsedNotSeen(trace[..n], serial);
      assert trace == trace[..n] + [trace[n]];
      SerialsGrow(trace[..n], trace[n]);
    }
  }

  ghost predicate Refines(trace: seq<Datagram>, e: Env)
    requires EnvOk(e) && AllWellformed(trace)
  {
    Agree(Receive(trace, e), ReceiveIdeal(trace, e), trace)
  }

  lemma UnfoldReceive(before: seq<Datagram>, d: Datagram, e: Env)
    requires EnvOk(e) && AllWellformed(before) && Wellformed(d)
    ensures AllWellformed(before + [d])
    ensures Receive(before + [d], e) == OnDatagram(Receive(before, e), Serialize(d.frag), At(e, d))
    ensures ReceiveIdeal(before + [d], e) == OnIdeal(ReceiveIdeal(before, e), d, e)
  {
    var trace := before + [d];
    assert trace[..|before|] == before && trace[|before|] == d;
  }

  /** On every orderly trace the 256-slot table behaves as if every generation had a slot of its own: same sends, same
      counters. */
  lemma {:induction false} TableRefinesMap(trace: seq<Datagram>, e: Env)
    requires EnvOk(e) && AllWellformed(trace) && Orderly(trace)
    ensures Refines(trace, e)
  {
    if |trace| == 0 {
      assert Serials(trace) == {};
    } else {
      var before, d := trace[..|trace| - 1], trace[|trace| - 1];
      OrderlyPrefix(trace);
      assert Wellformed(d) && trace == before + [d];
      TableRefinesMap(before, e);
      UnfoldReceive(before, d, e);
      StepAgrees(Receive(before, e), ReceiveIdeal(before, e), before, d, e);
    }
  }

  lemma OrderlyPrefix(trace: seq<Datagram>)
    requires Orderly(trace) && |trace| > 0
    ensures Orderly(trace[..|trace| - 1]) && Fits(trace[..|trace| - 1], trace[|trace| - 1].serial)
  {
    var before := trace[..|trace| - 1];
    forall j | 0 <= j < |before|
      ensures Fits(before[..j], before[j].serial)
    {
      assert before[..j] == trace[..j];
    }
  }
}
