/** The Reed-Solomon processing host: generations, the one-slot pending buffer, and what goes out on each path. */
module RsGateway {
  import opened Base
  import opened RsCodec
  import opened Wire
  import opened RsGeneration

  /** A fragment on a path, with the unwrapped number of its generation and its place in it. */
  datatype Sent = Sent(serial: nat, mark: Mark, frag: Fragment)

  /** A full generation waiting for its parity to be computed. */
  datatype Batch = Batch(serial: nat, packets: seq<Packet>)

  /** The host's state. `serial` counts generations without the 16-bit wrap; `history[s]` is what was sent as data of
      generation s (s = 0 is never used); `unprotected` are the generations whose parity was dropped. */
  datatype Gateway = Gateway(serial: nat, cur: seq<Packet>, pending: Option<Batch>,
                             dropped: nat, completed: nat, history: seq<seq<Packet>>, unprotected: set<nat>,
                             pathA: seq<Sent>, pathB: seq<Sent>)

  function Initial(): Gateway {
    Gateway(0, [], None, 0, 0, [[]], {}, [], [])
  }

  /** Data and parity places alike: even ones take path A, odd ones path B. */
  function OnPathB(m: Mark): bool {
    match m
    case DataMark(i) => i % 2 == 1
    case ParityMark(p) => p % 2 == 1
  }

  function Send(gw: Gateway, x: Sent): Gateway {
    if OnPathB(x.mark) then gw.(pathB := gw.pathB + [x]) else gw.(pathA := gw.pathA + [x])
  }

  function SentData(serial: nat, i: nat, pkt: Packet): Sent {
    Sent(serial, DataMark(i), DataFragment(WireId(serial), i, pkt))
  }

  predicate ValidPackets(packets: seq<Packet>) {
    && 0 < |packets| <= K
    && 0 < |packets[0]| <= MAX_PKT_LEN
    && forall i :: 0 <= i < |packets| ==> |packets[i]| == |packets[0]|
  }

  function SentParity(c: Codec, r: nat, b: Batch, p: nat): Sent
    requires Shaped(c, r) && p < r && ValidPackets(b.packets) && |b.packets| == K
  {
    Sent(b.serial, ParityMark(p),
         ParityFragment(WireId(b.serial), p, ParityRow(c, r, b.packets, |b.packets[0]|, p)))
  }

  /** A full generation goes to the pending slot, or is dropped if the slot is taken. */
  function MarkReady(gw: Gateway, b: Batch): Gateway {
    if gw.pending.Some? then gw.(dropped := gw.dropped + 1, unprotected := gw.unprotected + {b.serial})
    else gw.(pending := Some(b))
  }

  /** The packet joins the open generation, or opens the next one if there is none or the length changed. */
  function Append(gw: Gateway, pkt: Packet): Gateway
    requires |gw.history| == gw.serial + 1
  {
    if |gw.cur| == 0 || |gw.cur[0]| != |pkt| then
      gw.(serial := gw.serial + 1, cur := [pkt], history := gw.history + [[pkt]])
    else
      gw.(cur := gw.cur + [pkt], history := gw.history[gw.serial := gw.cur + [pkt]])
  }

  /** One intercepted packet. */
  function OnPacket(gw: Gateway, pkt: Packet): Gateway
    requires |gw.history| == gw.serial + 1
  {
    if |pkt| == 0 || |pkt| > MAX_PKT_LEN then gw
    else
      var g1 := Append(gw, pkt);
      var g2 := Send(g1, SentData(g1.serial, |g1.cur| - 1, pkt));
      if |g2.cur| == K then MarkReady(g2.(cur := []), Batch(g2.serial, g2.cur)) else g2
  }

  /** The first n parity fragments of a batch. */
  function SendParity(gw: Gateway, c: Codec, r: nat, b: Batch, n: nat): Gateway
    requires Shaped(c, r) && n <= r && ValidPackets(b.packets) && |b.packets| == K
  {
    if n == 0 then gw else Send(SendParity(gw, c, r, b, n - 1), SentParity(c, r, b, n - 1))
  }

  ghost predicate PendingOk(gw: Gateway) {
    gw.pending.Some? ==> ValidPackets(gw.pending.value.packets) && |gw.pending.value.packets| == K
  }

  /** The end of a receive batch: a pending generation is encoded and its parity sent. */
  function OnBatchEnd(gw: Gateway, c: Codec, r: nat): Gateway
    requires Shaped(c, r) && PendingOk(gw)
  {
    if gw.pending.None? then gw
    else SendParity(gw, c, r, gw.pending.value, r).(pending := None, completed := gw.completed + 1)
  }

  // ----- the invariant

  /** No further data will be sent under generation s. */
  predicate Closed(gw: Gateway, s: nat) {
    s < gw.serial || (s == gw.serial && |gw.cur| == 0)
  }

  ghost predicate HistoryOk(gw: Gateway) {
    && |gw.history| == gw.serial + 1
    && |gw.cur| <= K && |gw.history[0]| == 0
    && (gw.serial == 0 ==> gw.cur == [])
    && (forall s :: 0 < s <= gw.serial ==> ValidPackets(gw.history[s]))
    && (|gw.cur| > 0 ==> gw.history[gw.serial] == gw.cur)
  }

  /** The pending generation is closed, full, and none of its parity has been sent. */
  ghost predicate PendingIsFresh(gw: Gateway)
    requires HistoryOk(gw)
  {
    gw.pending.Some? ==>
      var b := gw.pending.value;
      && 0 < b.serial <= gw.serial && Closed(gw, b.serial)
      && |b.packets| == K && b.packets == gw.history[b.serial]
      && NoParity(gw.pathA, b.serial) && NoParity(gw.pathB, b.serial)
  }

  ghost predicate NoParity(log: seq<Sent>, s: nat) {
    forall k :: 0 <= k < |log| && log[k].serial == s ==> log[k].mark.DataMark?
  }

  /** Everything on the path is a genuine fragment of its generation, on the path its place belongs to. */
  ghost predicate Genuine(gw: Gateway, c: Codec, r: nat, x: Sent)
    requires Shaped(c, r) && HistoryOk(gw)
  {
    && 0 < x.serial <= gw.serial
    && var h := gw.history[x.serial];
       match x.mark
       case DataMark(i) => i < |h| && x == SentData(x.serial, i, h[i])
       case ParityMark(p) => p < r && |h| == K && Closed(gw, x.serial) && x == SentParity(c, r, Batch(x.serial, h), p)
  }

  /** Path order: no fragment appears twice, and no data follows parity of its own generation. */
  ghost predicate Ordered(log: seq<Sent>) {
    forall i, j :: 0 <= i < j < |log| ==>
      && (log[i].serial != log[j].serial || log[i].mark != log[j].mark)
      && (log[i].mark.ParityMark? && log[j].mark.DataMark? ==> log[i].serial != log[j].serial)
  }

  ghost predicate PathOk(gw: Gateway, c: Codec, r: nat, log: seq<Sent>, isB: bool)
    requires Shaped(c, r) && HistoryOk(gw)
  {
    && Ordered(log)
    && forall k :: 0 <= k < |log| ==>
         Genuine(gw, c, r, log[k]) && OnPathB(log[k].mark) == isB
  }

  function PathOf(gw: Gateway, m: Mark): seq<Sent> {
    if OnPathB(m) then gw.pathB else gw.pathA
  }

  ghost predicate IsOn(log: seq<Sent>, s: nat, m: Mark) {
    exists k :: 0 <= k < |log| && log[k].serial == s && log[k].mark == m
  }

  /** Every packet of every generation was sent as data. */
  ghost predicate AllSent(gw: Gateway)
    requires HistoryOk(gw)
  {
    forall s, i :: IsData(gw, s, i) ==> IsOn(PathOf(gw, DataMark(i)), s, DataMark(i))
  }

  /** Packet i of generation s exists. */
  ghost predicate IsData(gw: Gateway, s: nat, i: nat)
    requires HistoryOk(gw)
  {
    0 < s <= gw.serial && i < |gw.history[s]|
  }

  /** Generation s is full, no more data joins it, and it is neither waiting for its parity nor was it dropped. */
  ghost predicate Encoded(gw: Gateway, s: nat)
    requires HistoryOk(gw)
  {
    && 0 < s <= gw.serial && |gw.history[s]| == K && Closed(gw, s)
    && s !in gw.unprotected && !(gw.pending.Some? && gw.pending.value.serial == s)
  }

  /** All parity of every encoded generation was sent. */
  ghost predicate ParityIsSent(gw: Gateway, r: nat)
    requires HistoryOk(gw)
  {
    forall s: nat, p: nat :: Encoded(gw, s) && p < r ==> IsOn(PathOf(gw, ParityMark(p)), s, ParityMark(p))
  }

  /** The dropped generations are counted; they were full, and none of their parity was sent. */
  ghost predicate DropsAreCounted(gw: Gateway)
    requires HistoryOk(gw)
  {
    && |gw.unprotected| == gw.dropped
    && forall s :: s in gw.unprotected ==>
         && 0 < s <= gw.serial && |gw.history[s]| == K && Closed(gw, s)
         && NoParity(gw.pathA, s) && NoParity(gw.pathB, s)
         && !(gw.pending.Some? && gw.pending.value.serial == s)
  }

  function FullGenerations(history: seq<seq<Packet>>): nat {
    if history == [] then 0
    else FullGenerations(history[..|history| - 1]) + if |history[|history| - 1]| == K then 1 else 0
  }

  /** Full generations are encoded, dropped or pending; nothing else happens to them. */
  ghost predicate Conserved(gw: Gateway) {
    FullGenerations(gw.history) == gw.completed + gw.dropped + if gw.pending.Some? then 1 else 0
  }

  ghost predicate Inv(gw: Gateway, c: Codec, r: nat) {
    && Shaped(c, r)
    && HistoryOk(gw) && |gw.cur| < K
    && PathOk(gw, c, r, gw.pathA, false) && PathOk(gw, c, r, gw.pathB, true)
    && PendingIsFresh(gw) && AllSent(gw) && ParityIsSent(gw, r) && DropsAreCounted(gw) && Conserved(gw)
  }

  lemma InitialInv(c: Codec, r: nat)
    requires Shaped(c, r)
    ensures Inv(Initial(), c, r)
  {
    assert FullGenerations([[]]) == 0;
  }

  // ----- appending a packet

  lemma AppendKeepsHistory(gw: Gateway, pkt: Packet)
    requires HistoryOk(gw) && |gw.cur| < K && 0 < |pkt| <= MAX_PKT_LEN
    ensures var g := Append(gw, pkt);
      && HistoryOk(g) && |g.cur| > 0 && g.cur[|g.cur| - 1] == pkt
      && g.serial >= gw.serial && !Closed(g, g.serial)
      && (forall s :: 0 <= s <= gw.serial && Closed(gw, s) ==> Closed(g, s) && g.history[s] == gw.history[s])
      && (forall s :: 0 <= s <= gw.serial ==>
          |gw.history[s]| <= |g.history[s]| && g.history[s][..|gw.history[s]|] == gw.history[s])
      && (g.serial > gw.serial ==> |g.cur| == 1)
      && (g.serial == gw.serial ==> |g.cur| == |gw.history[g.serial]| + 1)
      && (forall s :: 0 <= s < g.serial ==> s <= gw.serial && g.history[s] == gw.history[s])
  {
    var g := Append(gw, pkt);
    assert forall s :: 0 < s <= g.serial ==> ValidPackets(g.history[s]);
  }

  lemma AppendKeepsGenuine(gw: Gateway, pkt: Packet, c: Codec, r: nat, x: Sent)
    requires HistoryOk(gw) && |gw.cur| < K && 0 < |pkt| <= MAX_PKT_LEN && Shaped(c, r)
    requires Genuine(gw, c, r, x)
    ensures HistoryOk(Append(gw, pkt)) && Genuine(Append(gw, pkt), c, r, x)
  {
    AppendKeepsHistory(gw, pkt);
    var g := Append(gw, pkt);
    assert |gw.history[x.serial]| <= |g.history[x.serial]|;
    if x.mark.DataMark? {
      var i := x.mark.i;
      assert g.history[x.serial][..|gw.history[x.serial]|][i] == gw.history[x.serial][i];
    }
  }

  lemma AppendKeepsPath(gw: Gateway, pkt: Packet, c: Codec, r: nat, log: seq<Sent>, isB: bool)
    requires HistoryOk(gw) && |gw.cur| < K && 0 < |pkt| <= MAX_PKT_LEN && Shaped(c, r)
    requires PathOk(gw, c, r, log, isB)
    ensures HistoryOk(Append(gw, pkt)) && PathOk(Append(gw, pkt), c, r, log, isB)
  {
    AppendKeepsHistory(gw, pkt);
    forall k | 0 <= k < |log|
      ensures Genuine(Append(gw, pkt), c, r, log[k])
    {
      AppendKeepsGenuine(gw, pkt, c, r, log[k]);
    }
  }

  // ----- sending

  /** Appending a new fragment keeps the path in order if it is data of a generation without parity, or parity. */
  lemma PathExtends(gw: Gateway, c: Codec, r: nat, log: seq<Sent>, isB: bool, x: Sent)
    requires Shaped(c, r) && HistoryOk(gw) && PathOk(gw, c, r, log, isB)
    requires Genuine(gw, c, r, x) && OnPathB(x.mark) == isB && !IsOn(log, x.serial, x.mark)
    requires x.mark.DataMark? ==> NoParity(log, x.serial)
    ensures PathOk(gw, c, r, log + [x], isB)
  {
    var log' := log + [x];
    forall i, j | 0 <= i < j < |log'|
      ensures log'[i].serial != log'[j].serial || log'[i].mark != log'[j].mark
      ensures log'[i].mark.ParityMark? && log'[j].mark.DataMark? ==> log'[i].serial != log'[j].serial
    {
      if j == |log| {
        assert log'[i] == log[i];
      }
    }
  }

  lemma IsOnGrows(log: seq<Sent>, x: Sent, s: nat, m: Mark)
    ensures IsOn(log, s, m) ==> IsOn(log + [x], s, m)
    ensures IsOn(log + [x], x.serial, x.mark)
  {
    var log' := log + [x];
    if k :| 0 <= k < |log| && log[k].serial == s && log[k].mark == m {
      assert log'[k] == log[k];
    }
    assert log'[|log|] == x;
  }

  /** Sending a genuine new fragment. */
  lemma SendKeeps(gw: Gateway, c: Codec, r: nat, x: Sent)
    requires Shaped(c, r) && HistoryOk(gw)
    requires PathOk(gw, c, r, gw.pathA, false) && PathOk(gw, c, r, gw.pathB, true)
    requires Genuine(gw, c, r, x) && !IsOn(PathOf(gw, x.mark), x.serial, x.mark)
    requires x.mark.DataMark? ==> NoParity(PathOf(gw, x.mark), x.serial)
    ensures var g := Send(gw, x);
      && HistoryOk(g) && PathOk(g, c, r, g.pathA, false) && PathOk(g, c, r, g.pathB, true)
  {
    PathExtends(gw, c, r, PathOf(gw, x.mark), OnPathB(x.mark), x);
    var g := Send(gw, x);
    forall y | Genuine(gw, c, r, y)
      ensures Genuine(g, c, r, y)
    {
    }
  }

  // ----- one packet

  /** The new packet's fragment has not been sent before, and its generation has no parity yet. */
  lemma NewDataIsNew(gw: Gateway, pkt: Packet, c: Codec, r: nat, log: seq<Sent>, isB: bool)
    requires HistoryOk(gw) && |gw.cur| < K && 0 < |pkt| <= MAX_PKT_LEN && Shaped(c, r)
    requires PathOk(gw, c, r, log, isB)
    ensures var g := Append(gw, pkt);
      && HistoryOk(g) && g.cur != []
      && Genuine(g, c, r, SentData(g.serial, |g.cur| - 1, pkt))
      && !IsOn(log, g.serial, DataMark(|g.cur| - 1)) && NoParity(log, g.serial)
  {
    AppendKeepsHistory(gw, pkt);
    var g := Append(gw, pkt);
    forall k | 0 <= k < |log| && log[k].serial == g.serial
      ensures log[k].mark.DataMark? && log[k].mark.i < |g.cur| - 1
    {
      assert Genuine(gw, c, r, log[k]);
    }
  }

  lemma {:induction false} FullOfLast(history: seq<seq<Packet>>, last: seq<Packet>)
    ensures FullGenerations(history + [last]) == FullGenerations(history) + if |last| == K then 1 else 0
  {
    assert (history + [last])[..|history|] == history;
  }

  lemma AppendCounts(gw: Gateway, pkt: Packet)
    requires HistoryOk(gw) && |gw.cur| < K && 0 < |pkt| <= MAX_PKT_LEN
    ensures var g := Append(gw, pkt);
      FullGenerations(g.history) == FullGenerations(gw.history) + if |g.cur| == K then 1 else 0
  {
    var g := Append(gw, pkt);
    if g.serial > gw.serial {
      FullOfLast(gw.history, [pkt]);
    } else {
      var older := gw.history[..gw.serial];
      assert gw.history == older + [gw.cur] && g.history == older + [g.cur];
      FullOfLast(older, gw.cur);
      FullOfLast(older, g.cur);
    }
  }

  lemma AppendAllSent(gw: Gateway, pkt: Packet)
    requires HistoryOk(gw) && |gw.cur| < K && 0 < |pkt| <= MAX_PKT_LEN && AllSent(gw)
    ensures var g := Append(gw, pkt); var x := SentData(g.serial, |g.cur| - 1, pkt);
      HistoryOk(g) && HistoryOk(Send(g, x)) && AllSent(Send(g, x))
  {
    AppendKeepsHistory(gw, pkt);
    var g := Append(gw, pkt);
    var x := SentData(g.serial, |g.cur| - 1, pkt);
    var g2 := Send(g, x);
    forall s: nat, i: nat | IsData(g2, s, i)
      ensures IsOn(PathOf(g2, DataMark(i)), s, DataMark(i))
    {
      IsOnGrows(PathOf(gw, x.mark), x, s, DataMark(i));
      if !(s == x.serial && DataMark(i) == x.mark) {
        assert IsData(gw, s, i);
        assert IsOn(PathOf(gw, DataMark(i)), s, DataMark(i));
      }
    }
  }

  /** The invariant between sending a packet and closing its generation. */
  ghost predicate OpenInv(gw: Gateway, c: Codec, r: nat) {
    && Shaped(c, r)
    && HistoryOk(gw)
    && PathOk(gw, c, r, gw.pathA, false) && PathOk(gw, c, r, gw.pathB, true)
    && PendingIsFresh(gw) && AllSent(gw) && ParityIsSent(gw, r) && DropsAreCounted(gw)
    && FullGenerations(gw.history) ==
       gw.completed + gw.dropped + (if gw.pending.Some? then 1 else 0) + (if |gw.cur| == K then 1 else 0)
    && (|gw.cur| > 0 ==> NoParity(gw.pathA, gw.serial) && NoParity(gw.pathB, gw.serial))
  }

  lemma PendingStaysFresh(gw: Gateway, pkt: Packet)
    requires HistoryOk(gw) && |gw.cur| < K && 0 < |pkt| <= MAX_PKT_LEN && PendingIsFresh(gw)
    ensures var g := Append(gw, pkt); var x := SentData(g.serial, |g.cur| - 1, pkt);
      HistoryOk(g) && HistoryOk(Send(g, x)) && PendingIsFresh(Send(g, x))
  {
    AppendKeepsHistory(gw, pkt);
  }

  /** The open generation's new packet is a genuine fragment that no path has carried. */
  lemma AppendedIsNew(gw: Gateway, pkt: Packet, c: Codec, r: nat, g: Gateway, x: Sent)
    requires Inv(gw, c, r) && 0 < |pkt| <= MAX_PKT_LEN
    requires g == Append(gw, pkt) && g.cur != [] && x == SentData(g.serial, |g.cur| - 1, pkt)
    ensures HistoryOk(g) && PathOk(g, c, r, g.pathA, false) && PathOk(g, c, r, g.pathB, true)
    ensures Genuine(g, c, r, x) && !IsOn(PathOf(g, x.mark), x.serial, x.mark) && NoParity(PathOf(g, x.mark), x.serial)
  {
    AppendKeepsPath(gw, pkt, c, r, gw.pathA, false);
    AppendKeepsPath(gw, pkt, c, r, gw.pathB, true);
    NewDataIsNew(gw, pkt, c, r, gw.pathA, false);
    NewDataIsNew(gw, pkt, c, r, gw.pathB, true);
  }

  lemma SendingCounts(gw: Gateway, pkt: Packet, c: Codec, r: nat, g: Gateway, x: Sent)
    requires Inv(gw, c, r) && 0 < |pkt| <= MAX_PKT_LEN
    requires g == Append(gw, pkt) && g.cur != [] && x == SentData(g.serial, |g.cur| - 1, pkt)
    ensures FullGenerations(g.history) ==
            g.completed + g.dropped + (if g.pending.Some? then 1 else 0) + (if |g.cur| == K then 1 else 0)
  {
    AppendCounts(gw, pkt);
  }

  lemma SendingIsComplete(gw: Gateway, pkt: Packet, c: Codec, r: nat, g: Gateway, x: Sent)
    requires Inv(gw, c, r) && 0 < |pkt| <= MAX_PKT_LEN
    requires g == Append(gw, pkt) && g.cur != [] && x == SentData(g.serial, |g.cur| - 1, pkt)
    ensures HistoryOk(Send(g, x)) && PendingIsFresh(Send(g, x)) && AllSent(Send(g, x))
    ensures ParityIsSent(Send(g, x), r) && DropsAreCounted(Send(g, x))
  {
    AppendAllSent(gw, pkt);
    PendingStaysFresh(gw, pkt);
    SendingKeepsParity(gw, pkt, c, r, g, x);
    SendingKeepsDrops(gw, pkt, c, r, g, x);
  }

  /** The new packet is data of an open generation: it makes no generation an encoded one. */
  lemma SendingKeepsParity(gw: Gateway, pkt: Packet, c: Codec, r: nat, g: Gateway, x: Sent)
    requires Inv(gw, c, r) && 0 < |pkt| <= MAX_PKT_LEN
    requires g == Append(gw, pkt) && g.cur != [] && x == SentData(g.serial, |g.cur| - 1, pkt)
    ensures HistoryOk(Send(g, x)) && ParityIsSent(Send(g, x), r)
  {
    AppendKeepsHistory(gw, pkt);
    var g2 := Send(g, x);
    forall s: nat, p: nat | Encoded(g2, s) && p < r
      ensures IsOn(PathOf(g2, ParityMark(p)), s, ParityMark(p))
    {
      assert s < g.serial && g.history[s] == gw.history[s] && Encoded(gw, s);
      IsOnGrows(PathOf(gw, x.mark), x, s, ParityMark(p));
    }
  }

  lemma SendingKeepsDrops(gw: Gateway, pkt: Packet, c: Codec, r: nat, g: Gateway, x: Sent)
    requires Inv(gw, c, r) && 0 < |pkt| <= MAX_PKT_LEN
    requires g == Append(gw, pkt) && g.cur != [] && x == SentData(g.serial, |g.cur| - 1, pkt)
    ensures HistoryOk(Send(g, x)) && DropsAreCounted(Send(g, x))
  {
    AppendKeepsHistory(gw, pkt);
  }

  lemma SendingKeeps(gw: Gateway, pkt: Packet, c: Codec, r: nat, g: Gateway, x: Sent)
    requires Inv(gw, c, r) && 0 < |pkt| <= MAX_PKT_LEN
    requires g == Append(gw, pkt) && g.cur != [] && x == SentData(g.serial, |g.cur| - 1, pkt)
    ensures OpenInv(Send(g, x), c, r)
  {
    AppendedIsNew(gw, pkt, c, r, g, x);
    SendKeeps(g, c, r, x);
    SendingCounts(gw, pkt, c, r, g, x);
    SendingIsComplete(gw, pkt, c, r, g, x);
  }

  /** Closing the open generation changes nothing that has been sent. */
  lemma ClosingKeeps(gw: Gateway, c: Codec, r: nat)
    requires OpenInv(gw, c, r) && |gw.cur| == K
    ensures Inv(MarkReady(gw.(cur := []), Batch(gw.serial, gw.cur)), c, r)
  {
    var g := MarkReady(gw.(cur := []), Batch(gw.serial, gw.cur));
    forall y | Genuine(gw, c, r, y)
      ensures Genuine(g, c, r, y)
    {
    }
    assert PathOk(g, c, r, g.pathA, false) && PathOk(g, c, r, g.pathB, true);
    forall s: nat, i: nat | IsData(g, s, i)
      ensures IsOn(PathOf(g, DataMark(i)), s, DataMark(i))
    {
      assert IsData(gw, s, i);
    }
    ClosingKeepsParity(gw, c, r, g);
  }

  /** The generation that is closed waits for its parity, or is dropped. */
  lemma ClosingKeepsParity(gw: Gateway, c: Codec, r: nat, g: Gateway)
    requires OpenInv(gw, c, r) && |gw.cur| == K && g == MarkReady(gw.(cur := []), Batch(gw.serial, gw.cur))
    ensures HistoryOk(g) && ParityIsSent(g, r) && DropsAreCounted(g)
  {
    forall s: nat, p: nat | Encoded(g, s) && p < r
      ensures IsOn(PathOf(g, ParityMark(p)), s, ParityMark(p))
    {
      assert s != gw.serial && Encoded(gw, s);
    }
    assert gw.serial !in gw.unprotected;
  }

  lemma PacketKeepsInv(gw: Gateway, pkt: Packet, c: Codec, r: nat)
    requires Inv(gw, c, r)
    ensures Inv(OnPacket(gw, pkt), c, r)
  {
    if 0 < |pkt| <= MAX_PKT_LEN {
      var g := Append(gw, pkt);
      var x := SentData(g.serial, |g.cur| - 1, pkt);
      SendingKeeps(gw, pkt, c, r, g, x);
      var g' := Send(g, x);
      if |g'.cur| == K {
        ClosingKeeps(g', c, r);
      }
    }
  }

  // ----- the end of a receive batch

  lemma {:induction false} ParityKeeps(gw: Gateway, c: Codec, r: nat, b: Batch, n: nat)
    requires Shaped(c, r) && HistoryOk(gw) && n <= r
    requires PathOk(gw, c, r, gw.pathA, false) && PathOk(gw, c, r, gw.pathB, true)
    requires 0 < b.serial <= gw.serial && Closed(gw, b.serial) && |b.packets| == K && b.packets == gw.history[b.serial]
    requires NoParity(gw.pathA, b.serial) && NoParity(gw.pathB, b.serial)
    ensures ValidPackets(b.packets)
    ensures var g := SendParity(gw, c, r, b, n);
      && g == gw.(pathA := g.pathA, pathB := g.pathB)
      && HistoryOk(g) && PathOk(g, c, r, g.pathA, false) && PathOk(g, c, r, g.pathB, true)
      && gw.pathA <= g.pathA && gw.pathB <= g.pathB
      && (forall p :: n <= p < r ==> !IsOn(PathOf(g, ParityMark(p)), b.serial, ParityMark(p)))
  {
    if n == 0 {
    } else {
      ParityKeeps(gw, c, r, b, n - 1);
      var g := SendParity(gw, c, r, b, n - 1);
      var x := SentParity(c, r, b, n - 1);
      SendKeeps(g, c, r, x);
      var g' := SendParity(gw, c, r, b, n);
      forall p | n <= p < r
        ensures !IsOn(PathOf(g', ParityMark(p)), b.serial, ParityMark(p))
      {
        assert !IsOn(PathOf(g, ParityMark(p)), b.serial, ParityMark(p));
      }
    }
  }

  /** Parity fragments 0 to n - 1 of generation s are out, the odd ones on path B and the even ones on path A. */
  ghost predicate ParityIsOut(gw: Gateway, s: nat, n: nat) {
    forall p :: 0 <= p < n ==> IsOn(if p % 2 == 1 then gw.pathB else gw.pathA, s, ParityMark(p))
  }

  lemma OneMoreIsOut(gw: Gateway, x: Sent, n: nat)
    requires ParityIsOut(gw, x.serial, n) && x.mark == ParityMark(n)
    ensures ParityIsOut(Send(gw, x), x.serial, n + 1)
  {
    forall p | 0 <= p < n + 1
      ensures IsOn(if p % 2 == 1 then Send(gw, x).pathB else Send(gw, x).pathA, x.serial, ParityMark(p))
    {
      IsOnGrows(PathOf(gw, x.mark), x, x.serial, ParityMark(p));
    }
  }

  lemma {:induction false} ParityIsOn(gw: Gateway, c: Codec, r: nat, b: Batch, n: nat)
    requires Shaped(c, r) && n <= r && ValidPackets(b.packets) && |b.packets| == K
    ensures ParityIsOut(SendParity(gw, c, r, b, n), b.serial, n)
  {
    if n == 0 {
    } else {
      ParityIsOn(gw, c, r, b, n - 1);
      OneMoreIsOut(SendParity(gw, c, r, b, n - 1), SentParity(c, r, b, n - 1), n - 1);
    }
  }

  /** No other generation gets parity. */
  lemma {:induction false} OthersGetNoParity(gw: Gateway, c: Codec, r: nat, b: Batch, n: nat, s: nat)
    requires Shaped(c, r) && n <= r && ValidPackets(b.packets) && |b.packets| == K && s != b.serial
    requires NoParity(gw.pathA, s) && NoParity(gw.pathB, s)
    ensures var g := SendParity(gw, c, r, b, n); NoParity(g.pathA, s) && NoParity(g.pathB, s)
  {
    if n == 0 {
    } else {
      OthersGetNoParity(gw, c, r, b, n - 1, s);
    }
  }

  lemma IsOnLonger(log: seq<Sent>, log': seq<Sent>, s: nat, m: Mark)
    requires log <= log' && IsOn(log, s, m)
    ensures IsOn(log', s, m)
  {
    var k :| 0 <= k < |log| && log[k].serial == s && log[k].mark == m;
    assert log'[k] == log[k];
  }

  /** Between the parity and the counters, everything but the pending slot is in order again. */
  lemma ParityKeepsData(gw: Gateway, c: Codec, r: nat, g: Gateway)
    requires Inv(gw, c, r) && gw.pending.Some? && |gw.pending.value.packets| == K
    requires ValidPackets(gw.pending.value.packets)
    requires g == SendParity(gw, c, r, gw.pending.value, r)
    ensures HistoryOk(g) && PathOk(g, c, r, g.pathA, false) && PathOk(g, c, r, g.pathB, true) && AllSent(g)
    ensures g == gw.(pathA := g.pathA, pathB := g.pathB)
  {
    ParityKeeps(gw, c, r, gw.pending.value, r);
    forall s: nat, i: nat | IsData(g, s, i)
      ensures IsOn(PathOf(g, DataMark(i)), s, DataMark(i))
    {
      assert IsData(gw, s, i);
      IsOnLonger(PathOf(gw, DataMark(i)), PathOf(g, DataMark(i)), s, DataMark(i));
    }
  }

  /** The pending generation's parity is out, and nothing else has changed about parity. */
  lemma ParityIsComplete(gw: Gateway, c: Codec, r: nat, g: Gateway)
    requires Inv(gw, c, r) && gw.pending.Some? && |gw.pending.value.packets| == K
    requires ValidPackets(gw.pending.value.packets)
    requires g == SendParity(gw, c, r, gw.pending.value, r)
    ensures HistoryOk(g.(pending := None)) && ParityIsSent(g.(pending := None), r)
  {
    var b := gw.pending.value;
    ParityKeeps(gw, c, r, b, r);
    ParityIsOn(gw, c, r, b, r);
    forall s: nat, p: nat | Encoded(g.(pending := None), s) && p < r
      ensures IsOn(PathOf(g, ParityMark(p)), s, ParityMark(p))
    {
      if s != b.serial {
        assert Encoded(gw, s);
        IsOnLonger(PathOf(gw, ParityMark(p)), PathOf(g, ParityMark(p)), s, ParityMark(p));
      }
    }
  }

  lemma ParityKeepsDrops(gw: Gateway, c: Codec, r: nat, g: Gateway)
    requires Inv(gw, c, r) && gw.pending.Some? && |gw.pending.value.packets| == K
    requires ValidPackets(gw.pending.value.packets)
    requires g == SendParity(gw, c, r, gw.pending.value, r)
    ensures HistoryOk(g) && DropsAreCounted(g)
  {
    ParityKeeps(gw, c, r, gw.pending.value, r);
    forall s | s in g.unprotected
      ensures NoParity(g.pathA, s) && NoParity(g.pathB, s)
    {
      OthersGetNoParity(gw, c, r, gw.pending.value, r, s);
    }
  }

  lemma BatchEndKeepsInv(gw: Gateway, c: Codec, r: nat)
    requires Inv(gw, c, r)
    ensures PendingOk(gw) && Inv(OnBatchEnd(gw, c, r), c, r)
  {
    if gw.pending.Some? {
      var b := gw.pending.value;
      assert ValidPackets(gw.history[b.serial]);
      FlushKeepsInv(gw, c, r, b, SendParity(gw, c, r, b, r), OnBatchEnd(gw, c, r));
    }
  }

  lemma FlushKeepsInv(gw: Gateway, c: Codec, r: nat, b: Batch, g: Gateway, g': Gateway)
    requires Inv(gw, c, r) && gw.pending == Some(b) && ValidPackets(b.packets) && |b.packets| == K
    requires g == SendParity(gw, c, r, b, r) && g' == g.(pending := None, completed := gw.completed + 1)
    ensures Inv(g', c, r)
  {
    ParityKeepsData(gw, c, r, g);
    ParityIsComplete(gw, c, r, g);
    ParityKeepsDrops(gw, c, r, g);
    SlotIsFree(g, c, r, g');
  }

  /** The pending slot is emptied and the generation counted. */
  lemma SlotIsFree(gw: Gateway, c: Codec, r: nat, g': Gateway)
    requires Shaped(c, r) && HistoryOk(gw) && |gw.cur| < K && gw.pending.Some? && Conserved(gw)
    requires PathOk(gw, c, r, gw.pathA, false) && PathOk(gw, c, r, gw.pathB, true) && AllSent(gw)
    requires ParityIsSent(gw.(pending := None), r) && DropsAreCounted(gw)
    requires g' == gw.(pending := None, completed := gw.completed + 1)
    ensures Inv(g', c, r)
  {
    forall y | Genuine(gw, c, r, y)
      ensures Genuine(g', c, r, y)
    {
    }
    forall s: nat, i: nat | IsData(g', s, i)
      ensures IsOn(PathOf(g', DataMark(i)), s, DataMark(i))
    {
      assert IsData(gw, s, i);
    }
    forall s: nat, p: nat | Encoded(g', s) && p < r
      ensures IsOn(PathOf(g', ParityMark(p)), s, ParityMark(p))
    {
      assert Encoded(gw.(pending := None), s);
    }
  }

  // ----- the pending slot is enough for eight callbacks

  function OnPackets(gw: Gateway, pkts: seq<Packet>): (g: Gateway)
    requires |gw.history| == gw.serial + 1
    ensures |g.history| == g.serial + 1
    decreases |pkts|
  {
    if |pkts| == 0 then gw else OnPacket(OnPackets(gw, pkts[..|pkts| - 1]), pkts[|pkts| - 1])
  }

  lemma {:induction false} CallbacksFillSlowly(gw: Gateway, pkts: seq<Packet>, c: Codec, r: nat)
    requires Inv(gw, c, r) && gw.pending.None? && |pkts| <= K
    ensures var g := OnPackets(gw, pkts);
      && Inv(g, c, r) && g.dropped == gw.dropped
      && (g.pending.Some? ==> |g.cur| < |pkts|)
    decreases |pkts|
  {
    if |pkts| == 0 {
    } else {
      CallbacksFillSlowly(gw, pkts[..|pkts| - 1], c, r);
      PacketKeepsInv(OnPackets(gw, pkts[..|pkts| - 1]), pkts[|pkts| - 1], c, r);
      OneCallbackFills(OnPackets(gw, pkts[..|pkts| - 1]), pkts[|pkts| - 1], |pkts| - 1);
    }
  }

  lemma OneCallbackFills(gw: Gateway, pkt: Packet, n: nat)
    requires |gw.history| == gw.serial + 1 && |gw.cur| < K && n < K
    requires gw.pending.Some? ==> |gw.cur| < n
    ensures var g := OnPacket(gw, pkt); g.dropped == gw.dropped && (g.pending.Some? ==> |g.cur| < n + 1)
  {
  }

  /** A receive batch of at most K callbacks never loses a generation's parity, whatever the packets are. */
  lemma SmallBatchDropsNothing(gw: Gateway, pkts: seq<Packet>, c: Codec, r: nat)
    requires Inv(gw, c, r) && gw.pending.None? && |pkts| <= K
    ensures var g := OnPackets(gw, pkts);
      && Inv(g, c, r) && PendingOk(g) && OnBatchEnd(g, c, r).dropped == gw.dropped && OnBatchEnd(g, c, r).pending.None?
  {
    CallbacksFillSlowly(gw, pkts, c, r);
    var g := OnPackets(gw, pkts);
    BatchEndKeepsInv(g, c, r);
    if g.pending.Some? {
      ParityKeeps(g, c, r, g.pending.value, r);
    }
  }

  lemma PacketsGrow(gw: Gateway, pkts: seq<Packet>, pkt: Packet)
    requires |gw.history| == gw.serial + 1
    ensures OnPackets(gw, pkts + [pkt]) == OnPacket(OnPackets(gw, pkts), pkt)
  {
    assert (pkts + [pkt])[..|pkts|] == pkts;
  }

  /** The open generation has n packets, all of this length, and the pending slot is as it was. */
  ghost predicate Filled(gw: Gateway, g: Gateway, len: nat, n: nat) {
    && |g.cur| == n && (n > 0 ==> |g.cur[0]| == len)
    && g.pending == gw.pending && g.dropped == gw.dropped
  }

  lemma OneMoreFills(gw: Gateway, g: Gateway, pkt: Packet, n: nat)
    requires |g.history| == g.serial + 1 && 0 < |pkt| <= MAX_PKT_LEN && Filled(gw, g, |pkt|, n) && n + 1 < K
    ensures Filled(gw, OnPacket(g, pkt), |pkt|, n + 1)
  {
  }

  lemma {:induction false} SameLengthFills(gw: Gateway, pkt: Packet, n: nat)
    requires |gw.history| == gw.serial + 1 && 0 < |pkt| <= MAX_PKT_LEN
    requires |gw.cur| > 0 ==> |gw.cur[0]| == |pkt|
    requires |gw.cur| + n < K
    ensures Filled(gw, OnPackets(gw, Repeat(pkt, n)), |pkt|, |gw.cur| + n)
  {
    if n == 0 {
    } else {
      SameLengthFills(gw, pkt, n - 1);
      PacketsGrow(gw, Repeat(pkt, n - 1), pkt);
      OneMoreFills(gw, OnPackets(gw, Repeat(pkt, n - 1)), pkt, |gw.cur| + n - 1);
      assert Repeat(pkt, n) == Repeat(pkt, n - 1) + [pkt];
    }
  }

  lemma {:induction false} PacketsSplit(gw: Gateway, pkts: seq<Packet>, more: seq<Packet>)
    requires |gw.history| == gw.serial + 1
    ensures OnPackets(gw, pkts + more) == OnPackets(OnPackets(gw, pkts), more)
    decreases |more|
  {
    if |more| == 0 {
      assert pkts + more == pkts;
    } else {
      var all, shorter := pkts + more, more[..|more| - 1];
      assert all[..|all| - 1] == pkts + shorter && all[|all| - 1] == more[|more| - 1];
      PacketsSplit(gw, pkts, shorter);
    }
  }

  /** Nine callbacks can be too many: the second generation to fill finds the slot taken. */
  lemma NineCallbacksMayDrop(gw: Gateway, pkt: Packet)
    requires |gw.history| == gw.serial + 1 && 0 < |pkt| <= MAX_PKT_LEN && gw.pending.None?
    requires |gw.cur| == K - 1 && |gw.cur[0]| == |pkt|
    ensures OnPackets(gw, Repeat(pkt, K + 1)).dropped == gw.dropped + 1
  {
    var g1 := OnPacket(gw, pkt);
    assert OnPackets(gw, [pkt]) == g1 by {
      assert [pkt][..0] == [] && OnPackets(gw, []) == gw;
    }
    SameLengthFills(g1, pkt, K - 1);
    var g8 := OnPackets(g1, Repeat(pkt, K - 1));
    PacketsSplit(gw, [pkt], Repeat(pkt, K - 1));
    var first := [pkt] + Repeat(pkt, K - 1);
    assert Repeat(pkt, K + 1) == first + [pkt];
    PacketsGrow(gw, first, pkt);
  }

  lemma {:induction false} DropsStay(gw: Gateway, pkts: seq<Packet>)
    requires |gw.history| == gw.serial + 1
    ensures OnPackets(gw, pkts).dropped >= gw.dropped
    decreases |pkts|
  {
    if |pkts| == 0 {
    } else {
      DropsStay(gw, pkts[..|pkts| - 1]);
    }
  }

  /** From seven buffered packets, any batch of more than K of the same length drops a generation. */
  lemma LargeBatchDrops(gw: Gateway, pkt: Packet, n: nat)
    requires |gw.history| == gw.serial + 1 && 0 < |pkt| <= MAX_PKT_LEN && gw.pending.None?
    requires |gw.cur| == K - 1 && |gw.cur[0]| == |pkt| && n > K
    ensures OnPackets(gw, Repeat(pkt, n)).dropped > gw.dropped
  {
    NineCallbacksMayDrop(gw, pkt);
    var nine, rest := Repeat(pkt, K + 1), Repeat(pkt, n - K - 1);
    assert Repeat(pkt, n) == nine + rest;
    PacketsSplit(gw, nine, rest);
    DropsStay(OnPackets(gw, nine), rest);
  }
}
