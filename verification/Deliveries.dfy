/** What a receiver hands to its raw socket, and how that is counted. */
module Deliveries {
  import opened Base

  const MIN_IP: nat := 20

  /** One call of sendto on the raw socket. */
  datatype Delivery = Delivery(genId: nat, index: nat, pkt: Packet, original: bool, ok: bool)

  /** The counters of successful sends. */
  datatype SendTotals = SendTotals(forwarded: nat, bytesForwarded: nat, original: nat, bytesOriginal: nat)

  function CountSend(t: SendTotals, len: nat, original: bool): SendTotals {
    var t' := t.(forwarded := t.forwarded + 1, bytesForwarded := t.bytesForwarded + len);
    if original then t'.(original := t'.original + 1, bytesOriginal := t'.bytesOriginal + len) else t'
  }

  /** What is counted about successful sends: all of them, those of originals, and the bytes of either. */
  datatype Counter = Sends | Originals | Bytes | OriginalBytes

  function Booked(t: SendTotals, c: Counter): nat {
    match c
    case Sends => t.forwarded
    case Originals => t.original
    case Bytes => t.bytesForwarded
    case OriginalBytes => t.bytesOriginal
  }

  function Share(d: Delivery, c: Counter): nat {
    if !d.ok || ((c.Originals? || c.OriginalBytes?) && !d.original) then 0
    else if c.Bytes? || c.OriginalBytes? then |d.pkt|
    else 1
  }

  /** What the sends of a log add up to. */
  function Tally(log: seq<Delivery>, c: Counter): nat {
    if |log| == 0 then 0 else Tally(log[..|log| - 1], c) + Share(log[|log| - 1], c)
  }

  lemma TallyLast(log: seq<Delivery>, d: Delivery, c: Counter)
    ensures Tally(log + [d], c) == Tally(log, c) + Share(d, c)
  {
    assert (log + [d])[..|log|] == log;
  }

  lemma {:induction false} TallyJoin(a: seq<Delivery>, b: seq<Delivery>, c: Counter)
    ensures Tally(a + b, c) == Tally(a, c) + Tally(b, c)
    decreases |b|
  {
    if |b| == 0 {
      assert a + b == a;
    } else {
      var n := |b| - 1;
      TallyJoin(a, b[..n], c);
      TallyLast(a + b[..n], b[n], c);
      assert a + b == a + b[..n] + [b[n]];
    }
  }

  /** Successful sends that were not originals. */
  function RepairedSends(log: seq<Delivery>): nat {
    if |log| == 0 then 0
    else RepairedSends(log[..|log| - 1]) + if log[|log| - 1].ok && !log[|log| - 1].original then 1 else 0
  }

  lemma {:induction false} SendsSplit(log: seq<Delivery>)
    ensures Tally(log, Sends) == Tally(log, Originals) + RepairedSends(log)
  {
    if |log| == 0 {
    } else {
      SendsSplit(log[..|log| - 1]);
    }
  }

  // ----- what a handler call adds

  lemma SendIsBooked(t: SendTotals, d: Delivery, c: Counter)
    ensures Booked(if d.ok then CountSend(t, |d.pkt|, d.original) else t, c) == Booked(t, c) + Share(d, c)
  {
  }

  /** A counter moved by exactly what was sent in between. */
  ghost predicate Balanced(t: SendTotals, log: seq<Delivery>, t': SendTotals, log': seq<Delivery>, c: Counter) {
    Booked(t', c) + Tally(log, c) == Booked(t, c) + Tally(log', c)
  }

  lemma SendBalances(t: SendTotals, log: seq<Delivery>, d: Delivery, c: Counter)
    ensures Balanced(t, log, if d.ok then CountSend(t, |d.pkt|, d.original) else t, log + [d], c)
  {
    SendIsBooked(t, d, c);
    TallyLast(log, d, c);
  }

  /** The counters are the sums over everything that was handed to the raw socket successfully. */
  ghost predicate SendsAreCounted(t: SendTotals, log: seq<Delivery>) {
    forall c :: Booked(t, c) == Tally(log, c)
  }

  // ----- sends by generation or block

  function TagAll(s: nat, outs: seq<Delivery>): (r: seq<(nat, Delivery)>)
    ensures |r| == |outs|
  {
    seq(|outs|, k requires 0 <= k < |outs| => (s, outs[k]))
  }

  function Untag(log: seq<(nat, Delivery)>): (r: seq<Delivery>)
    ensures |r| == |log|
  {
    seq(|log|, k requires 0 <= k < |log| => log[k].1)
  }

  lemma UntagAppends(log: seq<(nat, Delivery)>, s: nat, outs: seq<Delivery>)
    ensures Untag(log + TagAll(s, outs)) == Untag(log) + outs
  {
  }

  /** The sends for generation or block s, in order. */
  function Of(log: seq<(nat, Delivery)>, s: nat): seq<Delivery> {
    if log == [] then []
    else Of(log[..|log| - 1], s) + if log[|log| - 1].0 == s then [log[|log| - 1].1] else []
  }

  lemma OfGrows(log: seq<(nat, Delivery)>, t: nat, d: Delivery, s: nat)
    ensures Of(log + [(t, d)], s) == if s == t then Of(log, s) + [d] else Of(log, s)
  {
    assert (log + [(t, d)])[..|log|] == log;
  }

  lemma {:induction false} OfTagged(log: seq<(nat, Delivery)>, t: nat, outs: seq<Delivery>, s: nat)
    ensures Of(log + TagAll(t, outs), s) == if s == t then Of(log, s) + outs else Of(log, s)
  {
    if outs == [] {
      assert log + TagAll(t, outs) == log;
    } else {
      var n := |outs| - 1;
      var before := outs[..n];
      OfTagged(log, t, before, s);
      OfGrows(log + TagAll(t, before), t, outs[n], s);
      assert log + TagAll(t, outs) == log + TagAll(t, before) + [(t, outs[n])];
      assert before + [outs[n]] == outs;
    }
  }
}
