/** Packets handed on, as bags. */
module Bags {
  import opened Base
  import opened Deliveries

  ghost predicate IsAmong(outs: seq<Delivery>, i: nat) {
    exists k :: 0 <= k < |outs| && outs[k].index == i
  }

  /** Exactly these packets were handed on, each once, byte-identical. */
  ghost predicate HandedOn(outs: seq<Delivery>, packets: seq<Packet>) {
    && (forall k :: 0 <= k < |outs| ==> outs[k].index < |packets| && outs[k].pkt == packets[outs[k].index])
    && (forall k, l :: 0 <= k < l < |outs| ==> outs[k].index != outs[l].index)
    && (forall i :: 0 <= i < |packets| ==> IsAmong(outs, i))
  }

  function PacketsOf(outs: seq<Delivery>): (ps: seq<Packet>)
    ensures |ps| == |outs|
  {
    seq(|outs|, k requires 0 <= k < |outs| => outs[k].pkt)
  }

  lemma PacketsSplice(outs: seq<Delivery>, k: nat)
    requires k < |outs|
    ensures multiset(PacketsOf(outs)) == multiset(PacketsOf(outs[..k] + outs[k + 1..])) + multiset{outs[k].pkt}
  {
    var a, b := PacketsOf(outs[..k]), PacketsOf(outs[k + 1..]);
    assert PacketsOf(outs) == a + [outs[k].pkt] + b;
    assert PacketsOf(outs[..k] + outs[k + 1..]) == a + b;
  }

  lemma {:induction false} HandedOnIsPermutation(outs: seq<Delivery>, packets: seq<Packet>)
    requires HandedOn(outs, packets)
    ensures multiset(PacketsOf(outs)) == multiset(packets)
    decreases |outs|
  {
    if |outs| == 0 {
      assert |packets| > 0 ==> IsAmong(outs, 0);
    } else {
      assert outs[0].index < |packets|;
      var m := |packets| - 1;
      assert IsAmong(outs, m);
      var k :| 0 <= k < |outs| && outs[k].index == m;
      WithoutLast(outs, packets, k);
      HandedOnIsPermutation(outs[..k] + outs[k + 1..], packets[..m]);
      PacketsSplice(outs, k);
      assert packets == packets[..m] + [packets[m]];
    }
  }

  lemma WithoutLast(outs: seq<Delivery>, packets: seq<Packet>, k: nat)
    requires HandedOn(outs, packets) && k < |outs| && outs[k].index == |packets| - 1
    ensures HandedOn(outs[..k] + outs[k + 1..], packets[..|packets| - 1])
  {
    var m, rest := |packets| - 1, outs[..k] + outs[k + 1..];
    forall i | 0 <= i < m
      ensures IsAmong(rest, i)
    {
      assert IsAmong(outs, i);
      var l :| 0 <= l < |outs| && outs[l].index == i;
      assert rest[if l < k then l else l - 1].index == i;
    }
    forall j | 0 <= j < |rest|
      ensures rest[j].index < m && rest[j].pkt == packets[..m][rest[j].index]
    {
      var l := if j < k then j else j + 1;
      assert rest[j] == outs[l];
    }
    forall i, j | 0 <= i < j < |rest|
      ensures rest[i].index != rest[j].index
    {
      assert rest[i] == outs[if i < k then i else i + 1] && rest[j] == outs[if j < k then j else j + 1];
    }
  }

  /** The bag with one packet, or nothing. */
  ghost function Single(yes: bool, pkt: Packet): multiset<Packet> {
    if yes then multiset{pkt} else multiset{}
  }

  /** The packets delivered for generation or block n. */
  ghost function BagOf(log: seq<(nat, Delivery)>, n: nat): multiset<Packet> {
    multiset(PacketsOf(Of(log, n)))
  }

  /** The packets delivered for generations or blocks 1 to n. */
  ghost function BagUpTo(log: seq<(nat, Delivery)>, n: nat): multiset<Packet> {
    if n == 0 then multiset{} else BagUpTo(log, n - 1) + BagOf(log, n)
  }

  lemma BagOfGrows(log: seq<(nat, Delivery)>, t: nat, d: Delivery, n: nat)
    ensures BagOf(log + [(t, d)], n) == BagOf(log, n) + Single(n == t, d.pkt)
  {
    OfGrows(log, t, d, n);
    if n == t {
      assert PacketsOf(Of(log, n) + [d]) == PacketsOf(Of(log, n)) + [d.pkt];
    }
  }

  lemma BagsRegroup(a: multiset<Packet>, b: multiset<Packet>, t: nat, n: nat, pkt: Packet)
    requires n > 0
    ensures (a + Single(0 < t <= n - 1, pkt)) + (b + Single(n == t, pkt)) == (a + b) + Single(0 < t <= n, pkt)
  {
  }

  lemma {:induction false} BagGrows(log: seq<(nat, Delivery)>, t: nat, d: Delivery, n: nat)
    ensures BagUpTo(log + [(t, d)], n) == BagUpTo(log, n) + Single(0 < t <= n, d.pkt)
  {
    if n == 0 {
    } else {
      BagGrows(log, t, d, n - 1);
      BagOfGrows(log, t, d, n);
      BagsRegroup(BagUpTo(log, n - 1), BagOf(log, n), t, n, d.pkt);
    }
  }

  ghost predicate TagsWithin(log: seq<(nat, Delivery)>, n: nat) {
    forall k :: 0 <= k < |log| ==> 0 < log[k].0 <= n
  }

  lemma {:induction false} BagIsWholeLog(log: seq<(nat, Delivery)>, n: nat)
    requires TagsWithin(log, n)
    ensures multiset(PacketsOf(Untag(log))) == BagUpTo(log, n)
    decreases |log|
  {
    if log == [] {
      EmptyBag(n);
    } else {
      var m := |log| - 1;
      var (t, d) := log[m];
      assert log == log[..m] + [(t, d)];
      BagIsWholeLog(log[..m], n);
      BagGrows(log[..m], t, d, n);
      assert PacketsOf(Untag(log)) == PacketsOf(Untag(log[..m])) + [d.pkt];
    }
  }

  lemma {:induction false} EmptyBag(n: nat)
    ensures BagUpTo([], n) == multiset{}
  {
    if n == 0 {
    } else {
      EmptyBag(n - 1);
    }
  }

  ghost predicate AllHandedOn(log: seq<(nat, Delivery)>, history: seq<seq<Packet>>, n: nat)
    requires n < |history|
  {
    forall s :: 0 < s <= n ==> HandedOn(Of(log, s), history[s])
  }

  lemma BagOfFlatten(history: seq<seq<Packet>>, n: nat)
    requires n < |history|
    ensures multiset(Flatten(history[..n + 1])) == multiset(Flatten(history[..n])) + multiset(history[n])
  {
    assert history[..n + 1] == history[..n] + [history[n]];
    FlattenLast(history[..n], history[n]);
  }

  lemma {:induction false} BagIsHistory(log: seq<(nat, Delivery)>, history: seq<seq<Packet>>, n: nat)
    requires n < |history| && |history[0]| == 0 && AllHandedOn(log, history, n)
    ensures BagUpTo(log, n) == multiset(Flatten(history[..n + 1]))
  {
    BagOfFlatten(history, n);
    if n > 0 {
      BagIsHistory(log, history, n - 1);
      HandedOnIsPermutation(Of(log, n), history[n]);
    }
  }

  lemma FlattenLast<T>(ss: seq<seq<T>>, last: seq<T>)
    ensures Flatten(ss + [last]) == Flatten(ss) + last
  {
    assert (ss + [last])[..|ss|] == ss;
  }

  /** A delivery's tag is the number of a generation or block with deliveries. */
  lemma {:induction false} TagHasDeliveries(log: seq<(nat, Delivery)>, k: nat)
    requires k < |log|
    ensures Of(log, log[k].0) != []
    decreases |log|
  {
    if k < |log| - 1 {
      TagHasDeliveries(log[..|log| - 1], k);
    }
  }

  lemma LogIsHistory(log: seq<(nat, Delivery)>, history: seq<seq<Packet>>, n: nat)
    requires |history| == n + 1 && |history[0]| == 0 && AllHandedOn(log, history, n) && TagsWithin(log, n)
    ensures multiset(PacketsOf(Untag(log))) == multiset(Flatten(history))
  {
    BagIsWholeLog(log, n);
    BagIsHistory(log, history, n);
    assert history[..n + 1] == history;
  }

  // ----- what the raw socket took

  /** The packets that the raw socket took. */
  function TakenFrom(log: seq<Delivery>): seq<Packet> {
    if |log| == 0 then []
    else TakenFrom(log[..|log| - 1]) + if log[|log| - 1].ok then [log[|log| - 1].pkt] else []
  }

  ghost predicate NothingRefused(log: seq<Delivery>) {
    forall k :: 0 <= k < |log| ==> log[k].ok
  }

  lemma {:induction false} AllTaken(log: seq<Delivery>)
    requires NothingRefused(log)
    ensures TakenFrom(log) == PacketsOf(log)
    decreases |log|
  {
    if |log| == 0 {
    } else {
      AllTaken(log[..|log| - 1]);
      assert PacketsOf(log) == PacketsOf(log[..|log| - 1]) + [log[|log| - 1].pkt];
    }
  }

  lemma {:induction false} NoneRefusedOf(log: seq<(nat, Delivery)>, s: nat)
    requires NothingRefused(Untag(log))
    ensures NothingRefused(Of(log, s))
    decreases |log|
  {
    if |log| == 0 {
    } else {
      var n := |log| - 1;
      forall k | 0 <= k < n
        ensures Untag(log[..n])[k].ok
      {
        assert Untag(log)[k] == Untag(log[..n])[k];
      }
      NoneRefusedOf(log[..n], s);
      assert Untag(log)[n].ok;
    }
  }
}
