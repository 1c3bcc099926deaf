/** The destination and its run summaries. */
module Destination {
  import opened Base

  const DEFAULT_CAPACITY: nat := 0x10_0000
  const NO_MINIMUM: nat := 0xFFFF_FFFF
  const INT32: nat := 0x8000_0000
  const SAMPLE: nat := 16
  const BLOCK: nat := 8

  /** A datagram too short for a header, or one with a run id and a sequence number. */
  datatype Datagram = Short | Tagged(run: nat, seqNo: nat)

  // ----- what counts as the active run

  /** The active run and the sequence numbers received in it, in order of arrival. */
  datatype View = View(haveRun: bool, run: nat, received: seq<nat>)

  /** Sequence number 0 of another run starts that run; so does the first header of all. */
  predicate Starts(v: View, d: Datagram) {
    d.Tagged? && (!v.haveRun || (d.run != v.run && d.seqNo == 0))
  }

  function See(v: View, d: Datagram): View {
    if d.Short? then v
    else if Starts(v, d) then View(true, d.run, [d.seqNo])
    else if d.run == v.run then v.(received := v.received + [d.seqNo])
    else v
  }

  lemma SeeSwitches(v: View, d: Datagram)
    ensures See(v, d).haveRun <==> v.haveRun || d.Tagged?
    ensures v.haveRun ==> (See(v, d).run != v.run <==> d.Tagged? && d.run != v.run && d.seqNo == 0)
  {
  }

  function Watch(stream: seq<Datagram>): View {
    if |stream| == 0 then View(false, 0, []) else See(Watch(stream[..|stream| - 1]), stream[|stream| - 1])
  }

  /** How many runs have been started. */
  function RunsIn(stream: seq<Datagram>): nat {
    if |stream| == 0 then 0
    else
      var before, d := stream[..|stream| - 1], stream[|stream| - 1];
      RunsIn(before) + if Starts(Watch(before), d) then 1 else 0
  }

  // ----- the set of received numbers

  function InRange(received: seq<nat>, cap: nat): set<nat> {
    set s | s in received && s < cap
  }

  function OutOfRange(received: seq<nat>, cap: nat): nat {
    if |received| == 0 then 0
    else OutOfRange(received[..|received| - 1], cap) + if received[|received| - 1] < cap then 0 else 1
  }

  /** The numbers below n that were not received, ascending. */
  function Absent(received: seq<nat>, n: nat): seq<nat> {
    if n == 0 then [] else Absent(received, n - 1) + if n - 1 in received then [] else [n - 1]
  }

  ghost predicate ExactlyAbsent(received: seq<nat>, n: nat, absent: seq<nat>) {
    forall i: nat :: i in absent <==> i < n && i !in received
  }

  ghost predicate Ascending(xs: seq<nat>) {
    forall k, l :: 0 <= k < l < |xs| ==> xs[k] < xs[l]
  }

  lemma OneMoreAbsent(received: seq<nat>, n: nat, before: seq<nat>, after: seq<nat>)
    requires ExactlyAbsent(received, n, before) && Ascending(before)
    requires after == before + if n in received then [] else [n]
    ensures ExactlyAbsent(received, n + 1, after) && Ascending(after)
  {
    assert forall k :: 0 <= k < |before| ==> before[k] in before;
    assert forall i: nat :: i in after <==> i in before || (i == n && i !in received);
  }

  lemma {:induction false} AbsentIsExact(received: seq<nat>, n: nat)
    ensures ExactlyAbsent(received, n, Absent(received, n)) && Ascending(Absent(received, n))
  {
    if n == 0 {
    } else {
      AbsentIsExact(received, n - 1);
      OneMoreAbsent(received, n - 1, Absent(received, n - 1), Absent(received, n));
    }
  }

  /** Received and absent numbers together are all numbers below n. */
  lemma {:induction false} AbsentComplements(received: seq<nat>, n: nat)
    ensures |Absent(received, n)| + |InRange(received, n)| == n
  {
    if n == 0 {
      assert InRange(received, 0) == {};
    } else {
      AbsentComplements(received, n - 1);
      if n - 1 in received {
        assert InRange(received, n) == InRange(received, n - 1) + {n - 1};
      } else {
        assert InRange(received, n) == InRange(received, n - 1);
      }
    }
  }

  function Least(a: nat, b: nat): nat {
    if a < b then a else b
  }

  // ----- blocks of eight

  predicate Got(received: seq<nat>, b: nat, i: nat) {
    b * BLOCK + i in received
  }

  function InBlock(received: seq<nat>, b: nat, n: nat): nat {
    if n == 0 then 0 else InBlock(received, b, n - 1) + if Got(received, b, n - 1) then 1 else 0
  }

  predicate BlockFull(received: seq<nat>, b: nat) {
    forall i :: 0 <= i < BLOCK ==> Got(received, b, i)
  }

  predicate BlockEmpty(received: seq<nat>, b: nat) {
    forall i :: 0 <= i < BLOCK ==> !Got(received, b, i)
  }

  lemma {:induction false} BlockExtremes(received: seq<nat>, b: nat, n: nat)
    ensures InBlock(received, b, n) <= n
    ensures InBlock(received, b, n) == n <==> forall i :: 0 <= i < n ==> Got(received, b, i)
    ensures InBlock(received, b, n) == 0 <==> forall i :: 0 <= i < n ==> !Got(received, b, i)
  {
    if n == 0 {
    } else {
      BlockExtremes(received, b, n - 1);
    }
  }

  function FullBlocks(received: seq<nat>, n: nat): nat {
    if n == 0 then 0 else FullBlocks(received, n - 1) + if BlockFull(received, n - 1) then 1 else 0
  }

  function EmptyBlocks(received: seq<nat>, n: nat): nat {
    if n == 0 then 0 else EmptyBlocks(received, n - 1) + if BlockEmpty(received, n - 1) then 1 else 0
  }

  datatype BlockStats = BlockStats(total: nat, full: nat, partial: nat, empty: nat)

  /** What is printed about a run. `number` tells apart runs that use the same id. */
  datatype Summary = Summary(number: nat, run: nat, matched: nat, uniques: nat, dups: nat, least: nat, greatest: nat,
                             missing: int, sample: seq<nat>, blocks: Option<BlockStats>)

  function Capacity(expected: int): nat {
    if expected > 0 then expected else DEFAULT_CAPACITY
  }

  ghost predicate IsLeast(m: nat, received: seq<nat>, cap: nat) {
    m in InRange(received, cap) && forall s :: s in InRange(received, cap) ==> m <= s
  }

  ghost predicate IsGreatest(m: nat, received: seq<nat>, cap: nat) {
    m in InRange(received, cap) && forall s :: s in InRange(received, cap) ==> s <= m
  }

  /** The numbers a summary speaks about: those expected, or 0 up to the greatest received. */
  function Space(expected: int, greatest: nat): nat {
    if expected > 0 then expected else greatest + 1
  }

  ghost predicate BlocksDescribe(blocks: Option<BlockStats>, received: seq<nat>, expected: int) {
    if expected < BLOCK then blocks.None?
    else
      var total := expected / BLOCK;
      && blocks.Some? && blocks.value.total == total
      && blocks.value.full == FullBlocks(received, total) && blocks.value.empty == EmptyBlocks(received, total)
      && blocks.value.full + blocks.value.partial + blocks.value.empty == total
  }

  /** A summary says about a run what the received numbers are. */
  ghost predicate Describes(sm: Summary, received: seq<nat>, expected: int) {
    var cap := Capacity(expected);
    var absent := Absent(received, Space(expected, sm.greatest));
    && sm.matched == |received| && sm.uniques == |InRange(received, cap)|
    && sm.matched == sm.uniques + sm.dups + OutOfRange(received, cap)
    && (if sm.uniques == 0 then sm.least == sm.greatest == 0
        else IsLeast(sm.least, received, cap) && IsGreatest(sm.greatest, received, cap))
    && sm.missing == |absent| && sm.sample == absent[..Least(SAMPLE, |absent|)]
    && BlocksDescribe(sm.blocks, received, expected)
  }

  lemma {:induction false} AbsentGrows(received: seq<nat>, i: nat, n: nat)
    requires i <= n
    ensures |Absent(received, i)| <= |Absent(received, n)|
    ensures Absent(received, n)[..|Absent(received, i)|] == Absent(received, i)
  {
    if i < n {
      AbsentGrows(received, i, n - 1);
    }
  }

  /** Nothing in range lies beyond the greatest number received. */
  lemma SpaceHoldsAll(received: seq<nat>, cap: nat, n: nat)
    requires n <= cap && forall s :: s in InRange(received, cap) ==> s < n
    ensures InRange(received, n) == InRange(received, cap)
  {
  }

  /** Different summaries are about different runs, in order. */
  ghost predicate OnePerRun(printed: seq<Summary>) {
    forall k, l :: 0 <= k < l < |printed| ==> printed[k].number < printed[l].number
  }

  ghost predicate HasSummary(printed: seq<Summary>, number: nat) {
    exists k :: 0 <= k < |printed| && printed[k].number == number
  }

  /** Everything that is expected has been received. */
  predicate Complete(expected: int, received: seq<nat>) {
    0 < expected && |InRange(received, expected)| == expected
  }

  lemma CompleteIsReached(expected: int, received: seq<nat>)
    requires expected > 0
    ensures Complete(expected, received) <==> |InRange(received, expected)| >= expected
  {
    AbsentComplements(received, expected);
  }

  // ----- the server

  ghost predicate Tallied(received: seq<nat>, cap: nat, uniques: nat, dups: nat, minSeq: nat, maxSeq: nat) {
    var known := InRange(received, cap);
    && uniques == |known|
    && |received| == uniques + dups + OutOfRange(received, cap)
    && (uniques == 0 ==> minSeq == NO_MINIMUM && maxSeq == 0)
    && (uniques > 0 ==> minSeq in known && maxSeq in known)
    && (forall s :: s in known ==> minSeq <= s <= maxSeq)
  }

  lemma TallyGrows(received: seq<nat>, s: nat, cap: nat, uniques: nat, dups: nat, minSeq: nat, maxSeq: nat)
    requires Tallied(received, cap, uniques, dups, minSeq, maxSeq) && cap <= NO_MINIMUM
    ensures if s >= cap then Tallied(received + [s], cap, uniques, dups, minSeq, maxSeq)
            else if s in received then Tallied(received + [s], cap, uniques, dups + 1, minSeq, maxSeq)
            else Tallied(received + [s], cap, uniques + 1, dups, if s < minSeq then s else minSeq,
                         if s > maxSeq then s else maxSeq)
  {
    Arrival(received, s, cap);
  }

  class Server {
    const expected: int
    var seen: array<bool>
    var uniques: nat
    var dups: nat
    var minSeq: nat
    var maxSeq: nat
    var haveRun: bool
    var currentRun: nat
    var summaryEmitted: bool
    var matched: nat
    var printed: seq<Summary>
    var number: nat // runs so far: not kept by the program, it only tags the summaries
    ghost var received: seq<nat>

    ghost function Seen(): View
      reads this
    {
      View(haveRun, currentRun, received)
    }

    /** The bitmap is the set of received numbers. */
    ghost predicate BitmapOk()
      reads this, seen
    {
      expected < INT32 && seen.Length == Capacity(expected) &&
        forall i :: 0 <= i < seen.Length ==> (seen[i] <==> i in received)
    }

    /** The counters are the cardinality of that set, the repetitions and the rest. */
    ghost predicate CountersOk()
      reads this
    {
      Tallied(received, Capacity(expected), uniques, dups, minSeq, maxSeq)
    }

    /** No run has two summaries; the active one has its own exactly once everything expected is there. */
    ghost predicate SummariesOk()
      reads this
    {
      && (forall k :: 0 <= k < |printed| ==> printed[k].number <= number)
      && OnePerRun(printed)
      && (summaryEmitted <==> |printed| > 0 && printed[|printed| - 1].number == number)
      && (summaryEmitted ==> printed[|printed| - 1].run == currentRun)
    }

    ghost predicate Valid()
      reads this, seen
    {
      && BitmapOk() && CountersOk() && SummariesOk()
      && (haveRun ==> matched == |received|) && (!haveRun ==> received == [])
      && (summaryEmitted <==> haveRun && 0 < expected <= uniques)
    }

    constructor (expected: int)
      requires expected < INT32
      ensures Valid() && Seen() == View(false, 0, []) && printed == [] && number == 0
      ensures this.expected == expected && fresh(seen)
    {
      this.expected := expected;
      seen := new bool[if expected > 0 then expected else DEFAULT_CAPACITY](i => false);
      uniques, dups, minSeq, maxSeq := 0, 0, NO_MINIMUM, 0;
      haveRun, currentRun, summaryEmitted, matched := false, 0, false, 0;
      printed, received, number := [], [], 0;
      new;
      assert InRange([], Capacity(expected)) == {};
    }

    /** A fresh bitmap for a new run. */
    method RunReset()
      requires expected < INT32
      modifies this`seen, this`uniques, this`dups, this`minSeq, this`maxSeq, this`received, this`number
      ensures BitmapOk() && CountersOk() && received == [] && fresh(seen) && number == old(number) + 1
    {
      seen := new bool[if expected > 0 then expected else DEFAULT_CAPACITY](i => false);
      uniques, dups, minSeq, maxSeq := 0, 0, NO_MINIMUM, 0;
      received := [];
      number := number + 1;
      assert InRange([], Capacity(expected)) == {};
    }

    method NoteSeq(s: nat)
      requires BitmapOk() && CountersOk()
      modifies this`uniques, this`dups, this`minSeq, this`maxSeq, this`received, seen
      ensures BitmapOk() && CountersOk() && received == old(received) + [s] && seen == old(seen)
      ensures uniques >= old(uniques)
    {
      ghost var before := received;
      received := received + [s];
      TallyGrows(before, s, Capacity(expected), uniques, dups, minSeq, maxSeq);
      if s < seen.Length {
        if !seen[s] {
          seen[s] := true;
          uniques := uniques + 1;
          if s < minSeq {
            minSeq := s;
          }
          if s > maxSeq {
            maxSeq := s;
          }
        } else {
          dups := dups + 1;
        }
      }
    }

    /** The first absent numbers, at most sixteen. */
    method PrintMissingSample() returns (sample: seq<nat>)
      requires BitmapOk() && CountersOk()
      ensures var absent := Absent(received, Space(expected, maxSeq)); sample == absent[..Least(SAMPLE, |absent|)]
    {
      sample := [];
      var total := Space(expected, maxSeq);
      var i := 0;
      while i < total && |sample| < SAMPLE
        invariant 0 <= i <= total <= seen.Length
        invariant |sample| <= SAMPLE && sample == Absent(received, i)
      {
        if !seen[i] {
          sample := sample + [i];
        }
        i := i + 1;
      }
      AbsentGrows(received, i, total);
    }

    method CountBlock(b: nat) returns (n: nat)
      requires BitmapOk() && (b + 1) * BLOCK <= seen.Length
      ensures n == InBlock(received, b, BLOCK)
    {
      n := 0;
      for i := 0 to BLOCK
        invariant n == InBlock(received, b, i)
      {
        if seen[b * BLOCK + i] {
          n := n + 1;
        }
      }
    }

    method PrintBlockStats() returns (stats: Option<BlockStats>)
      requires BitmapOk()
      ensures BlocksDescribe(stats, received, expected)
    {
      stats := None;
      if expected >= BLOCK {
        var total := expected / BLOCK;
        var full, partial, empty := 0, 0, 0;
        for b := 0 to total
          invariant full == FullBlocks(received, b) && empty == EmptyBlocks(received, b) && full + partial + empty == b
        {
          var n := CountBlock(b);
          BlockExtremes(received, b, BLOCK);
          if n == 0 {
            empty := empty + 1;
          } else if n == BLOCK {
            full := full + 1;
          } else {
            partial := partial + 1;
          }
        }
        stats := Some(BlockStats(total, full, partial, empty));
      }
    }

    ghost predicate PrintedOneMore(before: seq<Summary>)
      reads this
    {
      && |printed| == |before| + 1 && printed[..|before|] == before
      && Describes(printed[|before|], received, expected)
      && printed[|before|].number == number && printed[|before|].run == currentRun
    }

    method PrintRunSummary()
      requires BitmapOk() && CountersOk() && matched == |received|
      modifies this`printed
      ensures PrintedOneMore(old(printed))
    {
      var missing := Space(expected, maxSeq) - uniques;
      AbsentComplements(received, Space(expected, maxSeq));
      SpaceHoldsAll(received, Capacity(expected), Space(expected, maxSeq));
      var sample := [];
      if missing > 0 {
        sample := PrintMissingSample();
      }
      var blocks := PrintBlockStats();
      var sm := Summary(number, currentRun, matched, uniques, dups, if minSeq == NO_MINIMUM then 0 else minSeq, maxSeq,
                        missing, sample, blocks);
      printed := printed + [sm];
      assert Describes(sm, received, expected);
    }

    /** The summary is printed as soon as everything expected is there. */
    method SummariseIfComplete()
      requires BitmapOk() && CountersOk() && SummariesOk() && haveRun && matched == |received|
      requires summaryEmitted ==> 0 < expected <= uniques
      modifies this`printed, this`summaryEmitted
      ensures Valid()
      ensures printed == old(printed) || (PrintedOneMore(old(printed)) && printed[|printed| - 1].missing == 0)
    {
      if expected > 0 && uniques >= expected && !summaryEmitted {
        AbsentComplements(received, expected);
        PrintRunSummary();
        summaryEmitted := true;
      }
    }

    /** A packet of the active run. */
    method Account(s: nat)
      requires Valid() && haveRun
      modifies this`matched, this`uniques, this`dups, this`minSeq, this`maxSeq, this`received, this`printed,
               this`summaryEmitted, seen
      ensures Valid() && received == old(received) + [s] && seen == old(seen)
      ensures printed == old(printed) || (PrintedOneMore(old(printed)) && printed[|printed| - 1].missing == 0)
    {
      matched := matched + 1;
      NoteSeq(s);
      SummariseIfComplete();
    }

    /** One datagram. A summary printed before the end of the program shows that nothing is missing. */
    method Receive(d: Datagram)
      requires Valid()
      modifies this, seen
      ensures Valid() && Seen() == See(old(Seen()), d) && (seen == old(seen) || fresh(seen))
      ensures number == old(number) + if Starts(old(Seen()), d) then 1 else 0
      ensures haveRun <==> old(haveRun) || d.Tagged?
      ensures old(haveRun) ==> (currentRun != old(currentRun) <==>
                d.Tagged? && d.run != old(currentRun) && d.seqNo == 0)
      ensures printed == old(printed) || (PrintedOneMore(old(printed)) && printed[|printed| - 1].missing == 0)
    {
      SeeSwitches(Seen(), d);
      Take(d);
    }

    method Take(d: Datagram)
      requires Valid()
      modifies this, seen
      ensures Valid() && Seen() == See(old(Seen()), d) && (seen == old(seen) || fresh(seen))
      ensures number == old(number) + if Starts(old(Seen()), d) then 1 else 0
      ensures printed == old(printed) || (PrintedOneMore(old(printed)) && printed[|printed| - 1].missing == 0)
    {
      if d.Tagged? {
        SwitchRun(d.run, d.seqNo);
        if d.run == currentRun {
          Account(d.seqNo);
        }
      }
    }

    /** Sequence number 0 of another run starts that run, and so does the first header of all. */
    method SwitchRun(run: nat, s: nat)
      requires Valid()
      modifies this
      ensures Valid() && haveRun && printed == old(printed) && (seen == old(seen) || fresh(seen))
      ensures if Starts(old(Seen()), Tagged(run, s)) then Seen() == View(true, run, []) && number == old(number) + 1
              else Seen() == old(Seen()) && number == old(number)
    {
      if haveRun && run != currentRun && s == 0 {
        StartRun(run);
      }
      if !haveRun {
        StartRun(run);
      }
    }

    method StartRun(run: nat)
      requires expected < INT32 && SummariesOk()
      modifies this
      ensures Valid() && Seen() == View(true, run, []) && printed == old(printed) && fresh(seen)
      ensures number == old(number) + 1
    {
      currentRun, haveRun, matched, summaryEmitted := run, true, 0, false;
      RunReset();
    }

    /** The active run has its summary exactly if it is complete. */
    lemma ActiveRunIsFair()
      requires Valid() && haveRun
      ensures HasSummary(printed, number) <==> Complete(expected, received)
    {
      if expected > 0 {
        CompleteIsReached(expected, received);
      }
      if summaryEmitted {
        assert printed[|printed| - 1].number == number;
      }
    }

    /** The end of the program: the active run is summarised unless it has been already. */
    method Stop()
      requires Valid()
      modifies this`printed
      ensures if haveRun && !summaryEmitted then PrintedOneMore(old(printed)) else printed == old(printed)
      ensures OnePerRun(printed)
    {
      if haveRun && !summaryEmitted {
        PrintRunSummary();
      }
    }
  }

  lemma Arrival(before: seq<nat>, s: nat, cap: nat)
    ensures InRange(before + [s], cap) == if s < cap then InRange(before, cap) + {s} else InRange(before, cap)
    ensures OutOfRange(before + [s], cap) == OutOfRange(before, cap) + if s < cap then 0 else 1
    ensures forall i :: i in before + [s] <==> i in before || i == s
  {
    assert (before + [s])[..|before|] == before;
  }

  /** A summary describes the run as it was after some prefix of the stream. */
  ghost predicate Tells(sm: Summary, expected: int, stream: seq<Datagram>) {
    exists n :: 0 <= n <= |stream| && Describes(sm, Watch(stream[..n]).received, expected)
  }

  /** Every summary printed while the program runs describes a moment at which its run was complete. */
  ghost predicate AllComplete(printed: seq<Summary>, expected: int, stream: seq<Datagram>) {
    forall k :: 0 <= k < |printed| ==> printed[k].missing == 0 && Tells(printed[k], expected, stream)
  }

  lemma UnfoldWatch(before: seq<Datagram>, d: Datagram)
    ensures Watch(before + [d]) == See(Watch(before), d)
  {
    assert (before + [d])[..|before|] == before;
  }

  lemma StillTells(sm: Summary, expected: int, before: seq<Datagram>, d: Datagram)
    requires Tells(sm, expected, before)
    ensures Tells(sm, expected, before + [d])
  {
    var n :| 0 <= n <= |before| && Describes(sm, Watch(before[..n]).received, expected);
    assert (before + [d])[..n] == before[..n];
  }

  lemma TellsNow(sm: Summary, expected: int, stream: seq<Datagram>)
    requires Describes(sm, Watch(stream).received, expected)
    ensures Tells(sm, expected, stream)
  {
    assert stream[..|stream|] == stream;
  }

  lemma StillComplete(earlier: seq<Summary>, printed: seq<Summary>, expected: int, before: seq<Datagram>, d: Datagram)
    requires AllComplete(earlier, expected, before)
    requires printed == earlier ||
             (|printed| == |earlier| + 1 && printed[..|earlier|] == earlier && printed[|earlier|].missing == 0 &&
              Describes(printed[|earlier|], Watch(before + [d]).received, expected))
    ensures AllComplete(printed, expected, before + [d])
  {
    forall k | 0 <= k < |printed|
      ensures printed[k].missing == 0 && Tells(printed[k], expected, before + [d])
    {
      if k < |earlier| {
        assert printed[k] == earlier[k];
        StillTells(earlier[k], expected, before, d);
      } else {
        TellsNow(printed[k], expected, before + [d]);
      }
    }
  }

  /** Without an expected count, a run of which nothing in range was received is said to miss number 0. */
  lemma NothingReceivedMissesOne(sm: Summary, received: seq<nat>, expected: int)
    requires Describes(sm, received, expected) && expected <= 0 && sm.uniques == 0
    ensures sm.missing == 1 && sm.sample == [0]
  {
    assert 0 in received ==> 0 in InRange(received, Capacity(expected));
    assert Absent(received, 1) == Absent(received, 0) + [0];
  }

  /** Without an expected count, the numbers said to be missing lie below the greatest one received if and only if
      something in range was received. */
  lemma MissingLieBelowIff(sm: Summary, received: seq<nat>, expected: int)
    requires Describes(sm, received, expected) && expected <= 0
    ensures (forall x :: x in Absent(received, Space(expected, sm.greatest)) ==> x < sm.greatest) <==> sm.uniques > 0
  {
    AbsentIsExact(received, sm.greatest + 1);
    if sm.uniques == 0 {
      assert 0 in received ==> 0 in InRange(received, Capacity(expected));
      assert 0 in Absent(received, sm.greatest + 1);
    }
  }

  /** A stream of which nothing is in range. */
  lemma OnlyOutOfRange(sm: Summary)
    requires Describes(sm, Watch([Tagged(7, DEFAULT_CAPACITY)]).received, 0)
    ensures Watch([Tagged(7, DEFAULT_CAPACITY)]) == View(true, 7, [DEFAULT_CAPACITY])
    ensures sm.matched == 1 && sm.uniques == 0 && sm.missing == 1 && sm.sample == [0]
  {
    var stream := [Tagged(7, DEFAULT_CAPACITY)];
    assert stream[..0] == [] && Watch([]) == View(false, 0, []);
    assert InRange([DEFAULT_CAPACITY], DEFAULT_CAPACITY) == {};
    NothingReceivedMissesOne(sm, Watch(stream).received, 0);
  }

  // ----- which replaced runs have a summary

  predicate StartsAt(stream: seq<Datagram>, n: nat)
    requires n < |stream|
  {
    Starts(Watch(stream[..n]), stream[n])
  }

  /** Datagram n starts a run although another one is active. */
  predicate ReplacedAt(stream: seq<Datagram>, n: nat)
    requires n < |stream|
  {
    StartsAt(stream, n) && Watch(stream[..n]).haveRun
  }

  /** The run that datagram n replaces has a summary exactly if it was complete. */
  ghost predicate FairAt(printed: seq<Summary>, expected: int, stream: seq<Datagram>, n: nat)
    requires n < |stream|
  {
    ReplacedAt(stream, n) ==>
      (HasSummary(printed, RunsIn(stream[..n])) <==> Complete(expected, Watch(stream[..n]).received))
  }

  ghost predicate AllFair(printed: seq<Summary>, expected: int, stream: seq<Datagram>) {
    forall n :: 0 <= n < |stream| ==> FairAt(printed, expected, stream, n)
  }

  lemma UnfoldRuns(before: seq<Datagram>, d: Datagram)
    ensures RunsIn(before + [d]) == RunsIn(before) + if Starts(Watch(before), d) then 1 else 0
  {
    assert (before + [d])[..|before|] == before;
  }

  lemma {:induction false} RunsGrow(stream: seq<Datagram>, n: nat)
    requires n <= |stream|
    ensures RunsIn(stream[..n]) <= RunsIn(stream)
    decreases |stream|
  {
    if n < |stream| {
      RunsGrow(stream[..|stream| - 1], n);
      assert stream[..|stream| - 1][..n] == stream[..n];
    } else {
      assert stream[..n] == stream;
    }
  }

  /** A replaced run's number is smaller than that of the active run. */
  lemma ReplacedIsOlder(stream: seq<Datagram>, n: nat)
    requires n < |stream| && ReplacedAt(stream, n)
    ensures RunsIn(stream[..n]) < RunsIn(stream)
  {
    assert stream[..n + 1] == stream[..n] + [stream[n]];
    UnfoldRuns(stream[..n], stream[n]);
    RunsGrow(stream, n + 1);
  }

  /** A summary of the active run says nothing about replaced ones. */
  lemma OneMoreIsFair(earlier: seq<Summary>, printed: seq<Summary>, number: nat, older: nat)
    requires printed == earlier ||
             (|printed| == |earlier| + 1 && printed[..|earlier|] == earlier && printed[|earlier|].number == number)
    requires older < number
    ensures HasSummary(printed, older) <==> HasSummary(earlier, older)
  {
    if HasSummary(earlier, older) {
      var k :| 0 <= k < |earlier| && earlier[k].number == older;
      assert printed[k] == earlier[k];
    }
    if HasSummary(printed, older) {
      var k :| 0 <= k < |printed| && printed[k].number == older;
      assert k < |earlier| ==> printed[k] == earlier[k];
    }
  }

  lemma FairPrefix(printed: seq<Summary>, expected: int, before: seq<Datagram>, d: Datagram, n: nat)
    requires n < |before|
    ensures FairAt(printed, expected, before + [d], n) <==> FairAt(printed, expected, before, n)
  {
    assert (before + [d])[..n] == before[..n] && (before + [d])[n] == before[n];
  }

  lemma StillFair(earlier: seq<Summary>, printed: seq<Summary>, expected: int, stream: seq<Datagram>)
    requires AllFair(earlier, expected, stream)
    requires printed == earlier || (|printed| == |earlier| + 1 && printed[..|earlier|] == earlier &&
                                    printed[|earlier|].number == RunsIn(stream))
    ensures AllFair(printed, expected, stream)
  {
    forall n | 0 <= n < |stream|
      ensures FairAt(printed, expected, stream, n)
    {
      assert FairAt(earlier, expected, stream, n);
      if ReplacedAt(stream, n) {
        ReplacedIsOlder(stream, n);
        OneMoreIsFair(earlier, printed, RunsIn(stream), RunsIn(stream[..n]));
      }
    }
  }

  /** One more datagram, before anything is printed about it. */
  lemma FairSoFar(printed: seq<Summary>, expected: int, before: seq<Datagram>, d: Datagram)
    requires AllFair(printed, expected, before)
    requires var v := Watch(before);
      v.haveRun ==> (HasSummary(printed, RunsIn(before)) <==> Complete(expected, v.received))
    ensures AllFair(printed, expected, before + [d])
  {
    var stream := before + [d];
    forall n | 0 <= n < |stream|
      ensures FairAt(printed, expected, stream, n)
    {
      if n < |before| {
        assert FairAt(printed, expected, before, n);
        FairPrefix(printed, expected, before, d, n);
      } else {
        assert stream[..n] == before;
      }
    }
  }

  /** With two packets expected, a run that is replaced after its first has no summary. */
  lemma ReplacedRunWithoutSummary(printed: seq<Summary>)
    requires AllFair(printed, 2, [Tagged(1, 0), Tagged(2, 0)])
    ensures ReplacedAt([Tagged(1, 0), Tagged(2, 0)], 1) && !HasSummary(printed, 1)
  {
    var stream := [Tagged(1, 0), Tagged(2, 0)];
    var first := [Tagged(1, 0)];
    assert stream[..1] == first && first[..0] == [];
    assert Watch(first) == View(true, 1, [0]) && RunsIn(first) == 1;
    assert InRange([0], 2) == {0};
    assert FairAt(printed, 2, stream, 1);
  }

  // ----- the receive loop

  /** The server has served the stream. */
  ghost predicate Served(server: Server, stream: seq<Datagram>)
    reads server, server.seen
  {
    && server.Valid() && server.Seen() == Watch(stream) && server.number == RunsIn(stream)
    && Truthful(server.printed, server.expected, stream)
  }

  /** What was printed so far tells about the stream, apart from the active run. */
  ghost predicate Truthful(printed: seq<Summary>, expected: int, stream: seq<Datagram>) {
    AllComplete(printed, expected, stream) && AllFair(printed, expected, stream)
  }

  ghost predicate ActiveIsFair(printed: seq<Summary>, expected: int, stream: seq<Datagram>) {
    var v := Watch(stream);
    v.haveRun ==> (HasSummary(printed, RunsIn(stream)) <==> Complete(expected, v.received))
  }

  /** At most one more summary, of the active run when it is complete. */
  ghost predicate CompleteAdded(earlier: seq<Summary>, printed: seq<Summary>, expected: int, stream: seq<Datagram>) {
    printed == earlier ||
    (|printed| == |earlier| + 1 && printed[..|earlier|] == earlier && printed[|earlier|].number == RunsIn(stream) &&
     printed[|earlier|].missing == 0 && Describes(printed[|earlier|], Watch(stream).received, expected))
  }

  lemma StillTruthful(earlier: seq<Summary>, printed: seq<Summary>, expected: int, before: seq<Datagram>, d: Datagram)
    requires Truthful(earlier, expected, before) && ActiveIsFair(earlier, expected, before)
    requires CompleteAdded(earlier, printed, expected, before + [d])
    ensures Truthful(printed, expected, before + [d])
  {
    StillComplete(earlier, printed, expected, before, d);
    FairSoFar(earlier, expected, before, d);
    StillFair(earlier, printed, expected, before + [d]);
  }

  lemma ServedIsFair(server: Server, stream: seq<Datagram>)
    requires Served(server, stream)
    ensures ActiveIsFair(server.printed, server.expected, stream)
  {
    if server.haveRun {
      server.ActiveRunIsFair();
    }
  }

  method ServeOne(server: Server, ghost before: seq<Datagram>, d: Datagram)
    requires Served(server, before)
    modifies server, server.seen
    ensures Served(server, before + [d])
    ensures server.seen == old(server.seen) || fresh(server.seen)
  {
    ghost var printed := server.printed;
    ServedIsFair(server, before);
    UnfoldWatch(before, d);
    UnfoldRuns(before, d);
    server.Receive(d);
    StillTruthful(printed, server.printed, server.expected, before, d);
  }

  /** The summaries of a whole stream: at most one a run; all but the last were complete; a replaced run has one exactly
      if it was complete when it was replaced; the active run has one, which describes it as it is or was complete. */
  ghost predicate SummedUp(printed: seq<Summary>, expected: int, stream: seq<Datagram>) {
    var v := Watch(stream);
    && OnePerRun(printed) && AllFair(printed, expected, stream)
    && (forall k :: 0 <= k < |printed| ==> Tells(printed[k], expected, stream))
    && (forall k :: 0 <= k < |printed| - 1 ==> printed[k].missing == 0)
    && (v.haveRun ==>
          && |printed| > 0
          && var sm := printed[|printed| - 1];
             sm.run == v.run && (sm.missing == 0 || Describes(sm, v.received, expected)))
  }

  method Finish(server: Server, ghost stream: seq<Datagram>)
    requires Served(server, stream)
    modifies server`printed
    ensures SummedUp(server.printed, server.expected, stream)
  {
    ghost var before := server.printed;
    server.Stop();
    AllTell(before, server.printed, server.expected, stream);
    StillFair(before, server.printed, server.expected, stream);
  }

  lemma AllTell(before: seq<Summary>, printed: seq<Summary>, expected: int, stream: seq<Datagram>)
    requires AllComplete(before, expected, stream)
    requires printed == before ||
             (|printed| == |before| + 1 && printed[..|before|] == before &&
              Describes(printed[|before|], Watch(stream).received, expected))
    ensures forall k :: 0 <= k < |printed| ==> Tells(printed[k], expected, stream)
    ensures forall k :: 0 <= k < |printed| - 1 ==> printed[k].missing == 0
    ensures printed == before && |printed| > 0 ==> printed[|printed| - 1].missing == 0
  {
    forall k | 0 <= k < |printed|
      ensures Tells(printed[k], expected, stream) && (k < |before| ==> printed[k].missing == 0)
    {
      if k < |before| {
        assert printed[k] == before[k];
      } else {
        TellsNow(printed[k], expected, stream);
      }
    }
  }

  method ServeAll(server: Server, stream: seq<Datagram>)
    requires Served(server, [])
    modifies server, server.seen
    ensures Served(server, stream)
  {
    assert stream[..0] == [];
    for k := 0 to |stream|
      invariant Served(server, stream[..k])
      invariant server.seen == old(server.seen) || fresh(server.seen)
    {
      assert stream[..k + 1] == stream[..k] + [stream[k]];
      ServeOne(server, stream[..k], stream[k]);
    }
    assert stream[..|stream|] == stream;
  }

  /** The program: every datagram, then the summary of the run that is active at the end. */
  method Serve(expected: int, stream: seq<Datagram>) returns (server: Server)
    requires expected < INT32
    ensures server.expected == expected && server.BitmapOk() && server.CountersOk() && server.Seen() == Watch(stream)
    ensures SummedUp(server.printed, expected, stream)
  {
    server := new Server(expected);
    ServeAll(server, stream);
    Finish(server, stream);
  }

  // ----- a run that is complete

  /** The sequence numbers of a stream that belong to a run. */
  function NumbersOf(stream: seq<Datagram>, run: nat): seq<nat> {
    if |stream| == 0 then []
    else
      var d := stream[|stream| - 1];
      NumbersOf(stream[..|stream| - 1], run) + if d.Tagged? && d.run == run then [d.seqNo] else []
  }

  lemma NumbersGrow(stream: seq<Datagram>, d: Datagram, run: nat)
    ensures NumbersOf(stream + [d], run) == NumbersOf(stream, run) + if d.Tagged? && d.run == run then [d.seqNo] else []
  {
    assert (stream + [d])[..|stream|] == stream;
  }

  /** A header with number 0 of another run. */
  predicate IsForeignStart(d: Datagram, run: nat) {
    d.Tagged? && d.run != run && d.seqNo == 0
  }

  ghost predicate NoForeignStart(stream: seq<Datagram>, run: nat) {
    forall k :: 0 <= k < |stream| ==> !IsForeignStart(stream[k], run)
  }

  /** While a run is active, the active run changes with a datagram if and only if that has number 0 and another run id;
      everything else of another run is ignored, and everything of the active run is received. */
  lemma RunSwitchIff(before: seq<Datagram>, d: Datagram)
    requires Watch(before).haveRun
    ensures var v, v' := Watch(before), Watch(before + [d]);
      && v'.haveRun && (v'.run != v.run <==> d.Tagged? && d.run != v.run && d.seqNo == 0)
      && (v'.run != v.run ==> v' == View(true, d.run, [0]))
      && (v'.run == v.run ==>
            v'.received == v.received + if d.Tagged? && d.run == v.run then [d.seqNo] else [])
  {
    UnfoldWatch(before, d);
  }

  /** The first header of all starts a run, whatever its number. */
  lemma {:induction false} FirstHeaderStarts(stream: seq<Datagram>)
    ensures Watch(stream).haveRun <==> exists k :: 0 <= k < |stream| && stream[k].Tagged?
    ensures !Watch(stream).haveRun ==> Watch(stream) == View(false, 0, [])
    ensures |stream| > 0 && stream[|stream| - 1].Tagged? && !Watch(stream[..|stream| - 1]).haveRun ==>
              Watch(stream) == View(true, stream[|stream| - 1].run, [stream[|stream| - 1].seqNo])
    decreases |stream|
  {
    if |stream| == 0 {
    } else {
      FirstHeaderStarts(stream[..|stream| - 1]);
    }
  }

  /** As long as no number 0 of another run arrives, the active run stays, and its datagrams are what is received. */
  lemma {:induction false} OthersAreIgnored(before: seq<Datagram>, more: seq<Datagram>)
    requires Watch(before).haveRun && NoForeignStart(more, Watch(before).run)
    ensures var v := Watch(before);
      Watch(before + more) == View(true, v.run, v.received + NumbersOf(more, v.run))
    decreases |more|
  {
    if |more| == 0 {
      assert before + more == before;
    } else {
      var n := |more| - 1;
      OthersAreIgnored(before, more[..n]);
      assert before + more == (before + more[..n]) + [more[n]];
      RunSwitchIff(before + more[..n], more[n]);
    }
  }

  /** The datagrams of one run. */
  function OfRun(stream: seq<Datagram>, run: nat): seq<Datagram> {
    if |stream| == 0 then []
    else
      var d := stream[|stream| - 1];
      OfRun(stream[..|stream| - 1], run) + if d.Tagged? && d.run == run then [d] else []
  }

  lemma {:induction false} OfRunIsPure(stream: seq<Datagram>, run: nat)
    ensures NoForeignStart(OfRun(stream, run), run) && NumbersOf(OfRun(stream, run), run) == NumbersOf(stream, run)
    decreases |stream|
  {
    if |stream| == 0 {
    } else {
      var before, d := stream[..|stream| - 1], stream[|stream| - 1];
      OfRunIsPure(before, run);
      if d.Tagged? && d.run == run {
        NumbersGrow(OfRun(before, run), d, run);
      } else {
        assert OfRun(stream, run) == OfRun(before, run);
      }
    }
  }

  /** Deleting foreign datagrams, none of which has number 0, changes nothing. */
  lemma ForeignCanBeDeleted(before: seq<Datagram>, more: seq<Datagram>)
    requires Watch(before).haveRun && NoForeignStart(more, Watch(before).run)
    ensures Watch(before + more) == Watch(before + OfRun(more, Watch(before).run))
  {
    OfRunIsPure(more, Watch(before).run);
    OthersAreIgnored(before, more);
    OthersAreIgnored(before, OfRun(more, Watch(before).run));
  }

  /** A straggler of the replaced run does not bring it back. */
  lemma StragglerIsIgnored()
    ensures Watch([Tagged(1, 0), Tagged(2, 0), Tagged(1, 1)]) == View(true, 2, [0])
  {
    var one, two, three := [Tagged(1, 0)], [Tagged(1, 0), Tagged(2, 0)], [Tagged(1, 0), Tagged(2, 0), Tagged(1, 1)];
    assert one == [] + [Tagged(1, 0)] && two == one + [Tagged(2, 0)] && three == two + [Tagged(1, 1)];
    UnfoldWatch([], Tagged(1, 0));
    RunSwitchIff(one, Tagged(2, 0));
    RunSwitchIff(two, Tagged(1, 1));
  }

  /** Datagram n started the run that is active at the end: it is the first header of all, or a number 0 that found
      another run active; and no number 0 of another run came later. */
  ghost predicate StartedBy(stream: seq<Datagram>, n: nat)
    requires n < |stream|
  {
    && stream[n].Tagged?
    && ((forall k :: 0 <= k < n ==> stream[k].Short?) ||
        (stream[n].seqNo == 0 && Watch(stream[..n]).haveRun && Watch(stream[..n]).run != stream[n].run))
    && NoForeignStart(stream[n + 1..], stream[n].run)
  }

  /** What is received is everything of the active run since the datagram that started it. */
  lemma {:induction false} ReceivedSinceStart(stream: seq<Datagram>) returns (n: nat)
    requires Watch(stream).haveRun
    ensures n < |stream| && StartedBy(stream, n)
    ensures Watch(stream) == View(true, stream[n].run, NumbersOf(stream[n..], stream[n].run))
    decreases |stream|
  {
    var m := |stream| - 1;
    var before, d := stream[..m], stream[m];
    assert stream == before + [d];
    FirstHeaderStarts(before);
    FirstHeaderStarts(stream);
    if !Watch(before).haveRun || IsForeignStart(d, Watch(before).run) {
      n := m;
      StartIsReceived(before, d);
      assert stream[m..] == [d] && stream[m + 1..] == [];
    } else {
      n := ReceivedSinceStart(before);
      StillStarted(before, d, n);
    }
  }

  lemma StartIsReceived(before: seq<Datagram>, d: Datagram)
    requires d.Tagged? && (!Watch(before).haveRun || IsForeignStart(d, Watch(before).run))
    ensures Watch(before + [d]) == View(true, d.run, NumbersOf([d], d.run))
  {
    UnfoldWatch(before, d);
    NumbersGrow([], d, d.run);
    assert [] + [d] == [d];
  }

  lemma StillStarted(before: seq<Datagram>, d: Datagram, n: nat)
    requires n < |before| && StartedBy(before, n) && !IsForeignStart(d, before[n].run)
    requires Watch(before) == View(true, before[n].run, NumbersOf(before[n..], before[n].run))
    ensures StartedBy(before + [d], n)
    ensures Watch(before + [d]) == View(true, before[n].run, NumbersOf((before + [d])[n..], before[n].run))
  {
    StillReceived(before, d, n);
    LaterPart(before, d, n);
  }

  lemma StillReceived(before: seq<Datagram>, d: Datagram, n: nat)
    requires n < |before| && before[n].Tagged? && !IsForeignStart(d, before[n].run)
    requires Watch(before) == View(true, before[n].run, NumbersOf(before[n..], before[n].run))
    ensures Watch(before + [d]) == View(true, before[n].run, NumbersOf((before + [d])[n..], before[n].run))
  {
    RunSwitchIff(before, d);
    NumbersGrow(before[n..], d, before[n].run);
    LaterPart(before, d, n);
  }

  lemma LaterPart(before: seq<Datagram>, d: Datagram, n: nat)
    requires n < |before|
    ensures var stream := before + [d];
      stream[..n] == before[..n] && stream[n] == before[n] && stream[n..] == before[n..] + [d]
      && stream[n + 1..] == before[n + 1..] + [d]
  {
  }

  /** The numbers 0 to n-1, each once and in any order, give a complete run: n unique, no duplicate, none out of range,
      none missing. */
  lemma CompleteRun(received: seq<nat>, n: nat)
    requires |received| == n && forall i :: 0 <= i < n ==> i in received
    ensures |InRange(received, n)| == n && Absent(received, n) == [] && OutOfRange(received, n) == 0
  {
    AbsentIsExact(received, n);
    assert |Absent(received, n)| > 0 ==> Absent(received, n)[0] in Absent(received, n);
    AbsentComplements(received, n);
    UniquesFit(received, n);
  }

  lemma {:induction false} UniquesFit(received: seq<nat>, cap: nat)
    ensures |InRange(received, cap)| + OutOfRange(received, cap) <= |received|
    decreases |received|
  {
    if |received| == 0 {
      assert InRange(received, cap) == {};
    } else {
      var before, s := received[..|received| - 1], received[|received| - 1];
      assert received == before + [s];
      UniquesFit(before, cap);
      Arrival(before, s, cap);
    }
  }
}
