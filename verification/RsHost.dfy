/** The Reed-Solomon processing host as it runs: flat byte buffers and nested encoding loops, proved against the
    gateway functions, and a whole receive batch with the flush that ends it. */
module RsHost {
  import opened Base
  import opened FlatBuffer
  import opened RsCodec
  import opened Wire
  import opened RsGeneration
  import opened RsGateway

  // ----- encoding

  /** Column j of a full generation. */
  method GatherColumn(a: array<Byte>, len: nat, j: nat, ghost rows: seq<Packet>) returns (column: seq<Byte>)
    requires |rows| == K && Laid(a, len, rows) && j < len
    ensures column == Column(rows, j)
  {
    column := [];
    for i := 0 to K
      invariant column == Column(rows, j)[..i]
    {
      LaidByte(a, len, rows, i, j);
      column := column + [a[Offset(i, len) + j]];
    }
  }

  /** All parity rows, column by column. */
  method EncodeColumns(a: array<Byte>, len: nat, c: Codec, r: nat, ghost rows: seq<Packet>)
    returns (parity: array2<Byte>)
    requires Shaped(c, r) && r <= MAX_PARITY && |rows| == K && Laid(a, len, rows) && len <= MAX_PKT_LEN
    ensures fresh(parity) && parity.Length0 == MAX_PARITY && parity.Length1 == MAX_PKT_LEN
    ensures forall p, j :: 0 <= p < r && 0 <= j < len ==> parity[p, j] == c.encode(Column(rows, j))[p]
  {
    parity := new Byte[MAX_PARITY, MAX_PKT_LEN]((p, j) => 0);
    for j := 0 to len
      invariant forall p, k :: 0 <= p < r && 0 <= k < j ==> parity[p, k] == c.encode(Column(rows, k))[p]
    {
      var column := GatherColumn(a, len, j, rows);
      var encoded := c.encode(column);
      for q := 0 to r
        invariant forall p, k :: 0 <= p < r && 0 <= k < j ==> parity[p, k] == c.encode(Column(rows, k))[p]
        invariant forall p :: 0 <= p < q ==> parity[p, j] == encoded[p]
      {
        parity[q, j] := encoded[q];
      }
    }
  }

  /** The bytes of one parity row. */
  method ReadRow(parity: array2<Byte>, p: nat, len: nat) returns (row: Packet)
    requires p < parity.Length0 && len <= parity.Length1
    ensures |row| == len && forall j :: 0 <= j < len ==> row[j] == parity[p, j]
  {
    row := seq(len, j requires 0 <= j < len && p < parity.Length0 && len <= parity.Length1 reads parity =>
                 parity[p, j]);
  }

  // ----- the host

  /** The frames on a path are the serialised fragments of the model, in order. */
  ghost predicate Carried(frames: seq<seq<Byte>>, log: seq<Sent>) {
    |frames| == |log| && forall k :: 0 <= k < |log| ==> Sendable(log[k].frag) && frames[k] == Serialize(log[k].frag)
  }

  lemma CarriedExtends(frames: seq<seq<Byte>>, log: seq<Sent>, x: Sent)
    requires Carried(frames, log) && Sendable(x.frag)
    ensures Carried(frames + [Serialize(x.frag)], log + [x])
  {
  }

  class Host {
    const codec: Codec
    const r: nat
    // the open generation
    var curId: nat
    var count: nat
    var len: nat
    const curData: array<Byte>
    // the pending one
    var pendingRs: bool
    var pendId: nat
    var pendCount: nat
    var pendLen: nat
    const pendData: array<Byte>
    var dropped: nat
    var completed: nat
    // what was handed to the two sockets
    var framesA: seq<seq<Byte>>
    var framesB: seq<seq<Byte>>
    ghost var model: Gateway

    ghost predicate Shape() {
      && curData != pendData && curData.Length == pendData.Length == Offset(K, MAX_PKT_LEN)
      && Shaped(codec, r) && r <= MAX_PARITY
    }

    ghost predicate OpenIs(cur: seq<Packet>, serial: nat)
      reads this`curId, this`count, this`len, curData
    {
      && curId == WireId(serial) && count == |cur| <= K
      && (count > 0 ==> 0 < len <= MAX_PKT_LEN && Laid(curData, len, cur))
    }

    ghost predicate PendingIs(pending: Option<Batch>)
      reads this`pendingRs, this`pendId, this`pendCount, this`pendLen, pendData
    {
      if !pendingRs then pending.None?
      else
        && pending.Some? && ValidPackets(pending.value.packets) && |pending.value.packets| == K
        && pendCount == K && pendId == WireId(pending.value.serial) && pendLen == |pending.value.packets[0]|
        && Laid(pendData, pendLen, pending.value.packets)
    }

    /** The fields show the model. */
    ghost predicate Mirrors()
      reads this, curData, pendData
    {
      && Shape()
      && |model.history| == model.serial + 1
      && OpenIs(model.cur, model.serial) && PendingIs(model.pending)
      && dropped == model.dropped && completed == model.completed
      && Carried(framesA, model.pathA) && Carried(framesB, model.pathB)
    }

    ghost predicate Valid()
      reads this, curData, pendData
    {
      Mirrors() && Inv(model, codec, r)
    }

    constructor (codec: Codec, r: nat)
      requires Shaped(codec, r) && r <= MAX_PARITY
      ensures Valid() && model == Initial() && this.codec == codec && this.r == r && fresh(curData) && fresh(pendData)
    {
      this.codec, this.r := codec, r;
      curId, count, len := 0, 0, 0;
      curData := new Byte[Offset(K, MAX_PKT_LEN)](i => 0);
      pendingRs, pendId, pendCount, pendLen := false, 0, 0, 0;
      pendData := new Byte[Offset(K, MAX_PKT_LEN)](i => 0);
      dropped, completed := 0, 0;
      framesA, framesB := [], [];
      model := Initial();
      new;
      InitialInv(codec, r);
    }

    /** One fragment on the path its index selects. */
    method SendFragment(genId: nat, index: nat, kind: nat, pkt: Packet, ghost x: Sent)
      requires Mirrors() && x.frag == Fragment(genId, index, kind, |pkt|, pkt) && Sendable(x.frag)
      requires x.mark.DataMark? ==> kind == DATA && index == x.mark.i
      requires x.mark.ParityMark? ==> kind == PARITY && index == K + x.mark.p
      modifies this`framesA, this`framesB, this`model
      ensures Mirrors() && model == Send(old(model), x)
    {
      var frame := Serialize(Fragment(genId, index, kind, |pkt|, pkt));
      var p := if kind == DATA then index else index - K;
      if p % 2 == 1 {
        CarriedExtends(framesB, model.pathB, x);
        framesB := framesB + [frame];
      } else {
        CarriedExtends(framesA, model.pathA, x);
        framesA := framesA + [frame];
      }
      model := Send(model, x);
    }

    /** A full generation is copied to the pending slot, or counted as dropped. */
    method MarkGenerationReady()
      requires Mirrors() && count == K && ValidPackets(model.cur)
      modifies this`pendingRs, this`pendId, this`pendCount, this`pendLen, this`dropped, this`model, pendData
      ensures Mirrors() && model == MarkReady(old(model), Batch(old(model).serial, old(model).cur))
      ensures curData[..] == old(curData[..])
    {
      if pendingRs {
        dropped := dropped + 1;
      } else {
        pendId, pendCount, pendLen := curId, count, len;
        OffsetFits(K, K, len, MAX_PKT_LEN);
        CopyLaid(curData, pendData, len, K, model.cur);
        pendingRs := true;
      }
      model := MarkReady(model, Batch(model.serial, model.cur));
    }

    /** The next generation starts if there is no open one or the length changed. An overfull generation would be closed
        here too, but there never is one. */
    method BeginIfNeeded(pkt: Packet)
      requires Mirrors() && count < K && 0 < |pkt| <= MAX_PKT_LEN
      modifies this`curId, this`count, this`len
      ensures len == |pkt| && count == |OpenRows(model, pkt)|
      ensures curId == WireId(if Joins(model, pkt) then model.serial else model.serial + 1)
    {
      if count == 0 {
        curId := (curId + 1) % UINT16;
        len := |pkt|;
      } else if |pkt| != len {
        if !pendingRs && count == K {
          assert false;
        }
        curId := (curId + 1) % UINT16;
        len := |pkt|;
        count := 0;
      }
      if count >= K {
        assert false;
      }
    }

    /** The packet is stored in the open generation. */
    method StoreNext(pkt: Packet)
      requires Mirrors() && count < K && 0 < |pkt| <= MAX_PKT_LEN
      modifies this`curId, this`count, this`len, curData
      ensures OpenIs(OpenRows(model, pkt) + [pkt], if Joins(model, pkt) then model.serial else model.serial + 1)
      ensures len == |pkt| && PendingIs(model.pending)
    {
      ghost var rows := OpenRows(model, pkt);
      BeginIfNeeded(pkt);
      OffsetFits(count + 1, K, len, MAX_PKT_LEN);
      StorePacket(curData, rows, count, len, pkt);
      count := count + 1;
    }

    method AppendPacket(pkt: Packet)
      requires Mirrors() && count < K && 0 < |pkt| <= MAX_PKT_LEN
      modifies this`curId, this`count, this`len, this`model, curData
      ensures Mirrors() && model == Append(old(model), pkt) && count > 0 && model.cur[count - 1] == pkt && len == |pkt|
    {
      ghost var g := Append(model, pkt);
      AppendJoins(model, pkt);
      StoreNext(pkt);
      Show(g);
    }

    /** The fields show this state. */
    method Show(ghost g: Gateway)
      requires Shape() && |g.history| == g.serial + 1 && OpenIs(g.cur, g.serial) && PendingIs(g.pending)
      requires dropped == g.dropped && completed == g.completed
      requires Carried(framesA, g.pathA) && Carried(framesB, g.pathB)
      modifies this`model
      ensures Mirrors() && model == g
    {
      model := g;
    }

    /** A full generation is handed over and the next packet starts a new one. */
    method CloseIfFull()
      requires Mirrors() && count > 0 && ValidPackets(model.cur)
      modifies this`count, this`len, this`pendingRs, this`pendId, this`pendCount, this`pendLen, this`dropped,
        this`model, pendData
      ensures Mirrors()
      ensures model ==
              if old(count) == K then MarkReady(old(model).(cur := []), Batch(old(model).serial, old(model).cur))
              else old(model)
    {
      if count == K {
        MarkGenerationReady();
        count := 0;
        len := 0;
        model := model.(cur := []);
      }
    }

    /** The new packet's fragment goes out at once. */
    method SendNewest(pkt: Packet)
      requires Mirrors() && count > 0 && len == |pkt|
      modifies this`framesA, this`framesB, this`model
      ensures Mirrors() && model == Send(old(model), SentData(old(model).serial, |old(model).cur| - 1, pkt))
    {
      SendFragment(curId, count - 1, DATA, pkt, SentData(model.serial, count - 1, pkt));
    }

    method AcceptPacket(pkt: Packet)
      requires Mirrors() && HistoryOk(model) && count < K && 0 < |pkt| <= MAX_PKT_LEN
      modifies this, curData, pendData
      ensures Mirrors() && model == OnPacket(old(model), pkt)
    {
      AppendKeepsHistory(model, pkt);
      AppendPacket(pkt);
      SendNewest(pkt);
      CloseIfFull();
    }

    method HandleIpPacket(pkt: Packet)
      requires Valid()
      modifies this, curData, pendData
      ensures Valid() && model == OnPacket(old(model), pkt)
    {
      PacketKeepsInv(model, pkt, codec, r);
      if 0 < |pkt| <= MAX_PKT_LEN {
        AcceptPacket(pkt);
      }
    }

    /** The parity of the pending generation goes out. */
    method SendParities(parity: array2<Byte>, ghost b: Batch)
      requires Mirrors() && ValidPackets(b.packets) && |b.packets| == K
      requires pendId == WireId(b.serial) && pendLen == |b.packets[0]|
      requires parity.Length0 == MAX_PARITY && parity.Length1 == MAX_PKT_LEN
      requires forall p, j :: 0 <= p < r && 0 <= j < pendLen ==> parity[p, j] == codec.encode(Column(b.packets, j))[p]
      modifies this`framesA, this`framesB, this`model
      ensures Mirrors() && model == SendParity(old(model), codec, r, b, r)
    {
      for p := 0 to r
        invariant Mirrors() && model == SendParity(old(model), codec, r, b, p)
      {
        var row := ReadRow(parity, p, pendLen);
        assert row == ParityRow(codec, r, b.packets, pendLen, p);
        SendFragment(pendId, K + p, PARITY, row, SentParity(codec, r, b, p));
      }
    }

    /** The pending generation is counted, encoded and its parity sent. */
    method FlushGeneration()
      requires Mirrors() && pendingRs
      modifies this`completed, this`framesA, this`framesB, this`model
      ensures Mirrors()
      ensures model == SendParity(old(model).(completed := old(model).completed + 1), codec, r,
                                  old(model).pending.value, r)
      ensures ParityIsOut(model, old(model).pending.value.serial, r)
    {
      ParityIsOn(model.(completed := model.completed + 1), codec, r, model.pending.value, r);
      EncodeAndSend();
    }

    method EncodeAndSend()
      requires Mirrors() && pendingRs
      modifies this`completed, this`framesA, this`framesB, this`model
      ensures Mirrors()
      ensures model == SendParity(old(model).(completed := old(model).completed + 1), codec, r,
                                  old(model).pending.value, r)
    {
      ghost var b := model.pending.value;
      if pendCount == K {
        completed := completed + 1;
        model := model.(completed := model.completed + 1);
        if r > 0 {
          var parity := EncodeColumns(pendData, pendLen, codec, r, b.packets);
          SendParities(parity, b);
        }
      }
    }

    method ClearPending()
      requires Mirrors()
      modifies this`pendingRs, this`model
      ensures Mirrors() && !pendingRs && model == old(model).(pending := None)
    {
      pendingRs := false;
      model := model.(pending := None);
    }

    method FlushPending()
      requires Mirrors() && pendingRs
      modifies this`completed, this`framesA, this`framesB, this`pendingRs, this`model
      ensures Mirrors() && !pendingRs
      ensures model == SendParity(old(model).(completed := old(model).completed + 1), codec, r,
                                  old(model).pending.value, r).(pending := None)
    {
      FlushGeneration();
      ClearPending();
    }

    /** Between two receive batches. */
    method EndOfBatch()
      requires Mirrors() && Shaped(codec, r) && PendingOk(model)
      modifies this`completed, this`framesA, this`framesB, this`pendingRs, this`model
      ensures Mirrors() && !pendingRs && model == OnBatchEnd(old(model), codec, r)
    {
      if pendingRs {
        FlushCommutes(model, codec, r);
        FlushPending();
      }
    }

    /** One turn of the receive loop: every callback of the batch, then the pending generation. */
    method RunBatch(pkts: seq<Packet>)
      requires Valid()
      modifies this, curData, pendData
      ensures Valid()
      ensures PendingOk(OnPackets(old(model), pkts)) && model == OnBatchEnd(OnPackets(old(model), pkts), codec, r)
      ensures |pkts| <= K && old(model.pending.None?) ==> dropped == old(dropped)
    {
      ghost var start := model;
      if |pkts| <= K && model.pending.None? {
        SmallBatchDropsNothing(model, pkts, codec, r);
      }
      for k := 0 to |pkts|
        invariant Valid() && model == OnPackets(start, pkts[..k])
      {
        assert pkts[..k + 1][..k] == pkts[..k];
        HandleIpPacket(pkts[k]);
      }
      assert pkts[..|pkts|] == pkts;
      BatchEndKeepsInv(model, codec, r);
      EndOfBatch();
    }
  }

  /** Counting the generation first or last makes no difference to what is sent. */
  lemma {:induction false} CompletedCommutes(gw: Gateway, c: Codec, r: nat, b: Batch, n: nat)
    requires Shaped(c, r) && n <= r && ValidPackets(b.packets) && |b.packets| == K
    ensures var g := SendParity(gw, c, r, b, n);
      && g.completed == gw.completed
      && SendParity(gw.(completed := gw.completed + 1), c, r, b, n) == g.(completed := gw.completed + 1)
  {
    if n == 0 {
    } else {
      CompletedCommutes(gw, c, r, b, n - 1);
    }
  }

  lemma FlushCommutes(gw: Gateway, c: Codec, r: nat)
    requires Shaped(c, r) && PendingOk(gw) && gw.pending.Some?
    ensures OnBatchEnd(gw, c, r) ==
            SendParity(gw.(completed := gw.completed + 1), c, r, gw.pending.value, r).(pending := None)
  {
    CompletedCommutes(gw, c, r, gw.pending.value, r);
  }

  /** The packet goes into the open generation. */
  ghost predicate Joins(gw: Gateway, pkt: Packet) {
    |gw.cur| > 0 && |gw.cur[0]| == |pkt|
  }

  ghost function OpenRows(gw: Gateway, pkt: Packet): seq<Packet> {
    if Joins(gw, pkt) then gw.cur else []
  }

  lemma AppendJoins(gw: Gateway, pkt: Packet)
    requires |gw.history| == gw.serial + 1
    ensures var g := Append(gw, pkt);
      && g == gw.(serial := if Joins(gw, pkt) then gw.serial else gw.serial + 1,
                  cur := OpenRows(gw, pkt) + [pkt], history := g.history)
      && |g.history| == g.serial + 1
  {
  }
}
