/** The strict-window pacing loop of the traffic generator, against an adversarial monotone clock. */
module Pacer {
  import opened Base

  const NS_PER_S: nat := 1_000_000_000

  /** What one trip round the loop meets. The clock moves forward by an arbitrary amount before every reading;
      a sleep that returns 0 ends no earlier than its absolute deadline; a send may fail. */
  datatype Trip = Trip(beforeHead: nat, beforeCheck: nat, oversleep: nat, beforeSend: nat, inSend: nat,
                       sleepRc: int, sendOk: bool)

  /** One datagram on the wire: its sequence number, its pacing slot, the clock when the slot was chosen,
      the clock at the last window check, and the clock when sendto was entered. */
  datatype Send = Send(seqNo: nat, slot: nat, chosenAt: nat, checkedAt: nat, at: nat)

  datatype Exit = WindowClosed | TargetReached | SlotOutside | SendFailed

  /** Slots given up together: `count` slots from `first`, given up at clock `at`. */
  datatype Skip = Skip(first: nat, count: nat, at: nat)

  datatype Report = Report(sends: seq<Send>, skips: seq<Skip>, nominalSlot: nat, missedSlots: nat, sleepErrors: nat,
                           lateCount: nat, overruns: nat, trips: nat, exit: Exit, clock: nat)

  function Max(x: nat, y: nat): nat { if x > y then x else y }

  /** The nominal workload, with the narrowing cast of the program. */
  function Target(pps: nat, duration: nat): nat {
    var raw := pps * duration;
    (raw - raw % 8) % UINT32
  }

  function Period(pps: nat): nat
    requires pps > 0
  {
    NS_PER_S / pps
  }

  /** The end of the sending window. */
  function Deadline(start: nat, duration: nat): nat {
    start + duration * NS_PER_S
  }

  /** The i-th send is not before its slot begins, and its slot was chosen before the slot's end. */
  ghost predicate InSlot(s: Send, i: nat, start: nat, period: nat) {
    s.seqNo == i && start + s.slot * period <= s.at && s.chosenAt < start + (s.slot + 1) * period
  }

  ghost predicate InOrder(s: Send, t: Send) {
    s.slot < t.slot && s.at <= t.chosenAt <= t.at
  }

  /** The pacing discipline of a whole run. */
  ghost predicate Paced(sends: seq<Send>, start: nat, period: nat) {
    && (forall i :: 0 <= i < |sends| ==> InSlot(sends[i], i, start, period))
    && (forall i, j :: 0 <= i < j < |sends| ==> InOrder(sends[i], sends[j]))
  }

  ghost predicate HasPassed(s: Skip, start: nat, period: nat) {
    s.count > 0 && start + (s.first + s.count) * period <= s.at
  }

  /** Only slots whose whole period has passed are given up. */
  ghost predicate Expired(skips: seq<Skip>, start: nat, period: nat) {
    forall k :: 0 <= k < |skips| ==> HasPassed(skips[k], start, period)
  }

  function SkippedSlots(skips: seq<Skip>): nat {
    if skips == [] then 0 else SkippedSlots(skips[..|skips| - 1]) + skips[|skips| - 1].count
  }

  function FailedSleeps(trip: nat -> Trip, n: nat): nat {
    if n == 0 then 0 else FailedSleeps(trip, n - 1) + if trip(n - 1).sleepRc != 0 then 1 else 0
  }

  /** The whole generator: workload and period from the options, then the pacing loop. */
  method Generate(pps: nat, duration: nat, start: nat, trip: nat -> Trip) returns (r: Report)
    requires 0 < pps <= NS_PER_S && duration > 0
    ensures 0 < Period(pps) && Period(pps) * pps <= 1_000_000_000 < (Period(pps) + 1) * pps
    ensures Outcome(r.trips, trip, Target(pps, duration), Period(pps), start, Deadline(start, duration)) == Some(r)
    ensures Disciplined(r, start, Deadline(start, duration), Period(pps)) && Accounted(r, trip)
    ensures |r.sends| <= Target(pps, duration)
    ensures r.exit == TargetReached ==> |r.sends| == Target(pps, duration) && r.clock < start + duration * 1_000_000_000
    ensures r.exit == WindowClosed ==> r.clock >= start + duration * 1_000_000_000
    ensures forall i :: 0 <= i < |r.sends| ==> r.sends[i].checkedAt < start + duration * 1_000_000_000
    ensures r.exit == SlotOutside ==> Target(pps, duration) - |r.sends| <= r.missedSlots + r.sleepErrors
  {
    PeriodIsPositive(pps);
    PeriodIsRounded(pps);
    r := Pace(Target(pps, duration), Period(pps), duration, start, trip);
    if r.exit == SlotOutside {
      OutsideMeansEnoughSlots(pps, duration, r.nominalSlot);
    }
  }

  ghost predicate Disciplined(r: Report, start: nat, deadline: nat, period: nat) {
    && Paced(r.sends, start, period)
    && Expired(r.skips, start, period)
    && forall i :: 0 <= i < |r.sends| ==> r.sends[i].checkedAt < deadline
  }

  /** Every nominal slot is sent, skipped or lost to a failed sleep, and every completed trip is a send or a failed
      sleep. */
  ghost predicate Accounted(r: Report, trip: nat -> Trip) {
    && r.nominalSlot == |r.sends| + r.missedSlots + r.sleepErrors
    && r.missedSlots == SkippedSlots(r.skips)
    && |r.skips| == r.overruns <= r.lateCount
    && r.sleepErrors == FailedSleeps(trip, r.trips)
    && |r.sends| + r.sleepErrors == r.trips
    && (forall k :: 0 <= k < r.trips && trip(k).sleepRc == 0 ==> trip(k).sendOk)
    && (r.exit == SendFailed ==> trip(r.trips).sleepRc == 0 && !trip(r.trips).sendOk)
  }

  /** Where the loop stands: `seqNo` and `slot` are kept apart, as in the program. */
  datatype Progress = Progress(sends: seq<Send>, skips: seq<Skip>, seqNo: nat, slot: nat, missed: nat, late: nat,
                               clock: nat)

  /** Every send so far is before the next slot and the present clock, and passed its window check. */
  ghost predicate BoundedBy(sends: seq<Send>, slot: nat, clock: nat, deadline: nat) {
    forall k :: 0 <= k < |sends| ==>
                  sends[k].slot < slot && sends[k].at <= clock && sends[k].checkedAt < deadline
  }

  ghost predicate Sound(p: Progress, start: nat, deadline: nat, period: nat) {
    && Paced(p.sends, start, period) && BoundedBy(p.sends, p.slot, p.clock, deadline)
    && Expired(p.skips, start, period) && p.missed == SkippedSlots(p.skips) && |p.skips| <= p.late
    && p.seqNo == |p.sends| && start <= p.clock
  }

  /** The slot number to give up to, counted from `slot`: whole periods that have passed. */
  function Skippable(start: nat, period: nat, slot: nat, now: nat): nat
    requires period > 0
  {
    if now > start + slot * period then (now - start - slot * period) / period else 0
  }

  /** The choice of the next slot: slots whose whole period has passed are skipped. */
  function Chosen(p: Progress, start: nat, period: nat): Progress
    requires period > 0
  {
    var skip := Skippable(start, period, p.slot, p.clock);
    var q := p.(late := p.late + if p.clock > start + p.slot * period then 1 else 0);
    if skip == 0 then q
    else q.(skips := p.skips + [Skip(p.slot, skip, p.clock)], missed := p.missed + skip, slot := p.slot + skip)
  }

  /** The first half of a trip: window, budget and slot checks, and skipping of expired slots. */
  function Selected(p: Progress, t: Trip, target: nat, period: nat, start: nat, deadline: nat)
    : (Progress, Option<Exit>)
    requires period > 0
  {
    var q := p.(clock := p.clock + t.beforeHead);
    if q.clock >= deadline then (q, Some(WindowClosed))
    else if q.seqNo >= target then (q, Some(TargetReached))
    else if start + q.slot * period >= deadline then (q, Some(SlotOutside))
    else
      var q1 := Chosen(q.(clock := q.clock + t.beforeCheck), start, period);
      (q1, if q1.slot > q.slot && start + q1.slot * period >= deadline then Some(SlotOutside) else None)
  }

  /** The second half: the absolute sleep, the second window check, and one send. */
  function Slept(p: Progress, t: Trip, period: nat, start: nat, deadline: nat): (Progress, Option<Exit>) {
    if t.sleepRc != 0 then (p.(clock := p.clock + t.oversleep, slot := p.slot + 1), None)
    else
      var woken := Max(p.clock, start + p.slot * period) + t.oversleep;
      var send := Send(p.seqNo, p.slot, p.clock, woken, woken + t.beforeSend);
      if woken >= deadline then (p.(clock := woken), Some(WindowClosed))
      else if !t.sendOk then (p.(clock := send.at + t.inSend), Some(SendFailed))
      else (p.(sends := p.sends + [send], seqNo := p.seqNo + 1, slot := p.slot + 1, clock := send.at + t.inSend), None)
  }

  function OneTrip(p: Progress, t: Trip, target: nat, period: nat, start: nat, deadline: nat)
    : (Progress, Option<Exit>)
    requires period > 0
  {
    var s := Selected(p, t, target, period, start, deadline);
    if s.1.Some? then s else Slept(s.0, t, period, start, deadline)
  }

  /** The loop after n trips, and how it was left on the way, if it was. */
  function After(n: nat, trip: nat -> Trip, target: nat, period: nat, start: nat, deadline: nat)
    : (Progress, Option<Exit>)
    requires period > 0
  {
    if n == 0 then (Progress([], [], 0, 0, 0, 0, start), None)
    else
      var before := After(n - 1, trip, target, period, start, deadline);
      if before.1.Some? then before else OneTrip(before.0, trip(n - 1), target, period, start, deadline)
  }

  lemma NextTrip(n: nat, trip: nat -> Trip, target: nat, period: nat, start: nat, deadline: nat)
    requires period > 0
    ensures var before := After(n, trip, target, period, start, deadline);
      After(n + 1, trip, target, period, start, deadline) ==
      if before.1.Some? then before else OneTrip(before.0, trip(n), target, period, start, deadline)
  {
  }

  /** The report of a run that is left in the trip after the n-th, if it is. */
  function Outcome(n: nat, trip: nat -> Trip, target: nat, period: nat, start: nat, deadline: nat): Option<Report>
    requires period > 0
  {
    var before := After(n, trip, target, period, start, deadline);
    var (p, exit) := After(n + 1, trip, target, period, start, deadline);
    if before.1.Some? || exit.None? then None
    else
      Some(Report(p.sends, p.skips, p.slot, p.missed, FailedSleeps(trip, n), p.late, |p.skips|, n, exit.value, p.clock))
  }

  lemma RunIsReported(p: Progress, q: Progress, exit: Exit, n: nat, trip: nat -> Trip, target: nat, period: nat,
                      start: nat, deadline: nat)
    requires period > 0 && After(n, trip, target, period, start, deadline) == (p, None)
    requires OneTrip(p, trip(n), target, period, start, deadline) == (q, Some(exit))
    ensures Outcome(n, trip, target, period, start, deadline) ==
            Some(Report(q.sends, q.skips, q.slot, q.missed, FailedSleeps(trip, n), q.late, |q.skips|, n, exit, q.clock))
  {
    NextTrip(n, trip, target, period, start, deadline);
  }

  /** What the loop has done in its first n trips. */
  ghost predicate Reached(p: Progress, n: nat, failed: nat, trip: nat -> Trip) {
    && p.slot == |p.sends| + p.missed + failed && n == |p.sends| + failed
    && failed == FailedSleeps(trip, n)
    && forall k :: 0 <= k < n && trip(k).sleepRc == 0 ==> trip(k).sendOk
  }

  /** What one trip changes, whether it completes or leaves. */
  ghost predicate Went(p: Progress, q: Progress, exit: Option<Exit>, t: Trip) {
    && q.missed >= p.missed
    && (exit.None? ==>
          && q.slot == p.slot + (q.missed - p.missed) + 1
          && |q.sends| == |p.sends| + (if t.sleepRc == 0 then 1 else 0)
          && (t.sleepRc == 0 ==> t.sendOk))
    && (exit.Some? ==> q.sends == p.sends && q.slot == p.slot + (q.missed - p.missed))
    && (exit == Some(SendFailed) ==> t.sleepRc == 0 && !t.sendOk)
  }

  /** What the way out says about where the loop was left. */
  ghost predicate LeftAt(q: Progress, exit: Exit, target: nat, period: nat, start: nat, deadline: nat) {
    && (exit == TargetReached ==> q.seqNo == target && q.clock < deadline)
    && (exit == WindowClosed ==> q.clock >= deadline)
    && (exit == SlotOutside ==> start + q.slot * period >= deadline)
  }

  lemma TripCompletes(p: Progress, q: Progress, n: nat, failed: nat, trip: nat -> Trip)
    requires Reached(p, n, failed, trip) && Went(p, q, None, trip(n))
    ensures Reached(q, n + 1, failed + (if trip(n).sleepRc != 0 then 1 else 0), trip)
  {
  }

  lemma TripLeaves(p: Progress, q: Progress, exit: Exit, n: nat, failed: nat, trip: nat -> Trip, r: Report)
    requires Reached(p, n, failed, trip) && Went(p, q, Some(exit), trip(n)) && |q.skips| <= q.late
    requires q.missed == SkippedSlots(q.skips)
    requires r == Report(q.sends, q.skips, q.slot, q.missed, failed, q.late, |q.skips|, n, exit, q.clock)
    ensures Accounted(r, trip)
  {
  }

  /** A trip that leaves the loop. */
  lemma RunEnds(p: Progress, q: Progress, exit: Exit, n: nat, failed: nat, trip: nat -> Trip, target: nat, period: nat,
                start: nat, deadline: nat, r: Report)
    requires period > 0 && After(n, trip, target, period, start, deadline) == (p, None)
    requires OneTrip(p, trip(n), target, period, start, deadline) == (q, Some(exit))
    requires Sound(q, start, deadline, period) && q.seqNo <= target
    requires Reached(p, n, failed, trip) && Went(p, q, Some(exit), trip(n))
    requires r == Report(q.sends, q.skips, q.slot, q.missed, failed, q.late, |q.skips|, n, exit, q.clock)
    ensures Outcome(n, trip, target, period, start, deadline) == Some(r)
    ensures Disciplined(r, start, deadline, period) && Accounted(r, trip) && |r.sends| <= target
  {
    TripLeaves(p, q, exit, n, failed, trip, r);
    RunIsReported(p, q, exit, n, trip, target, period, start, deadline);
  }

  /** A trip after which the loop goes on. */
  lemma TripGoesOn(p: Progress, q: Progress, n: nat, failed: nat, trip: nat -> Trip, target: nat, period: nat,
                   start: nat, deadline: nat)
    requires period > 0 && After(n, trip, target, period, start, deadline) == (p, None) && p.slot < q.slot
    requires OneTrip(p, trip(n), target, period, start, deadline) == (q, None)
    requires Reached(p, n, failed, trip) && Went(p, q, None, trip(n))
    ensures After(n + 1, trip, target, period, start, deadline) == (q, None)
    ensures Reached(q, n + 1, failed + (if trip(n).sleepRc != 0 then 1 else 0), trip)
    ensures start + p.slot * period < start + q.slot * period
  {
    NextTrip(n, trip, target, period, start, deadline);
    TripCompletes(p, q, n, failed, trip);
    NextSlotIsLater(p.slot, q.slot, period);
  }

  /** The pacing loop: trips until one of them leaves. */
  method Pace(target: nat, period: nat, duration: nat, start: nat, trip: nat -> Trip) returns (r: Report)
    requires period > 0
    ensures Outcome(r.trips, trip, target, period, start, Deadline(start, duration)) == Some(r)
    ensures Disciplined(r, start, Deadline(start, duration), period) && Accounted(r, trip)
    ensures |r.sends| <= target
    ensures r.exit == TargetReached ==> |r.sends| == target && r.clock < Deadline(start, duration)
    ensures r.exit == WindowClosed ==> r.clock >= Deadline(start, duration)
    ensures r.exit == SlotOutside ==> start + r.nominalSlot * period >= Deadline(start, duration)
  {
    var deadline := Deadline(start, duration);
    var p := Progress([], [], 0, 0, 0, 0, start);
    var sleepErrors, trips := 0, 0;
    while true
      invariant (p, None) == After(trips, trip, target, period, start, deadline)
      invariant Sound(p, start, deadline, period) && p.seqNo <= target && Reached(p, trips, sleepErrors, trip)
      decreases deadline - (start + p.slot * period)
    {
      var q, exit := TakeTrip(p, trip(trips), target, period, start, deadline);
      if exit.Some? {
        r := Report(q.sends, q.skips, q.slot, q.missed, sleepErrors, q.late, |q.skips|, trips, exit.value, q.clock);
        RunEnds(p, q, exit.value, trips, sleepErrors, trip, target, period, start, deadline, r);
        return;
      }
      TripGoesOn(p, q, trips, sleepErrors, trip, target, period, start, deadline);
      p := q;
      sleepErrors := sleepErrors + if trip(trips).sleepRc != 0 then 1 else 0;
      trips := trips + 1;
    }
  }

  /** Once round the loop. */
  method TakeTrip(p: Progress, t: Trip, target: nat, period: nat, start: nat, deadline: nat)
    returns (q: Progress, exit: Option<Exit>)
    requires period > 0 && Sound(p, start, deadline, period) && p.seqNo <= target
    ensures (q, exit) == OneTrip(p, t, target, period, start, deadline)
    ensures Sound(q, start, deadline, period) && q.seqNo <= target && Went(p, q, exit, t)
    ensures exit.None? ==> start + p.slot * period < deadline && p.slot < q.slot
    ensures exit.Some? ==> LeftAt(q, exit.value, target, period, start, deadline)
  {
    q, exit := SelectSlot(p, t, target, period, start, deadline);
    if exit.None? {
      q, exit := SleepAndSend(q, t, target, period, start, deadline);
    }
  }

  method SelectSlot(p: Progress, t: Trip, target: nat, period: nat, start: nat, deadline: nat)
    returns (q: Progress, exit: Option<Exit>)
    requires period > 0 && Sound(p, start, deadline, period) && p.seqNo <= target
    ensures (q, exit) == Selected(p, t, target, period, start, deadline)
    ensures Sound(q, start, deadline, period) && q.sends == p.sends &&
      q.slot == p.slot + (q.missed - p.missed) >= p.slot
    ensures exit.None? ==>
              && q.seqNo < target
              && q.clock < start + (q.slot + 1) * period
              && start + p.slot * period < deadline
    ensures exit == Some(TargetReached) ==> q.seqNo == target && q.clock < deadline
    ensures exit == Some(WindowClosed) ==> q.clock >= deadline
    ensures exit == Some(SlotOutside) ==> start + q.slot * period >= deadline
    ensures exit != Some(SendFailed)
  {
    exit := None;
    q := p.(clock := p.clock + t.beforeHead);
    if q.clock >= deadline {
      exit := Some(WindowClosed);
    } else if q.seqNo >= target {
      exit := Some(TargetReached);
    } else if start + q.slot * period >= deadline {
      exit := Some(SlotOutside);
    } else {
      var slot := q.slot;
      q := SkipExpired(q.(clock := q.clock + t.beforeCheck), period, start, deadline);
      if q.slot > slot && start + q.slot * period >= deadline {
        exit := Some(SlotOutside);
      }
    }
  }

  method SkipExpired(p: Progress, period: nat, start: nat, deadline: nat) returns (q: Progress)
    requires period > 0 && Sound(p, start, deadline, period)
    ensures q == Chosen(p, start, period) && Sound(q, start, deadline, period)
    ensures (q.sends, q.seqNo, q.clock) == (p.sends, p.seqNo, p.clock)
    ensures q.slot == p.slot + (q.missed - p.missed) >= p.slot && q.clock < start + (q.slot + 1) * period
  {
    q := p;
    var isLate, skip := ChooseSlot(start, period, p.slot, p.clock);
    if isLate {
      q := q.(late := q.late + 1);
    }
    if skip > 0 {
      SkipExtends(p.skips, Skip(p.slot, skip, p.clock), start, period);
      q := q.(skips := p.skips + [Skip(p.slot, skip, p.clock)], missed := p.missed + skip, slot := p.slot + skip);
    }
  }

  method SleepAndSend(p: Progress, t: Trip, target: nat, period: nat, start: nat, deadline: nat)
    returns (q: Progress, exit: Option<Exit>)
    requires period > 0 && Sound(p, start, deadline, period)
    requires p.seqNo < target && p.clock < start + (p.slot + 1) * period
    ensures (q, exit) == Slept(p, t, period, start, deadline)
    ensures Sound(q, start, deadline, period) && q.seqNo <= target && q.missed == p.missed
    ensures exit.None? ==>
              && q.slot == p.slot + 1
              && |q.sends| == |p.sends| + (if t.sleepRc == 0 then 1 else 0)
              && (t.sleepRc == 0 ==> t.sendOk)
    ensures exit.Some? ==> q.sends == p.sends && q.slot == p.slot
    ensures exit.Some? ==>
              || (exit == Some(WindowClosed) && q.clock >= deadline)
              || (exit == Some(SendFailed) && t.sleepRc == 0 && !t.sendOk)
  {
    exit := None;
    if t.sleepRc != 0 {
      q := p.(clock := p.clock + t.oversleep, slot := p.slot + 1);
    } else {
      q := p.(clock := Max(p.clock, start + p.slot * period) + t.oversleep);
      var send := Send(q.seqNo, q.slot, p.clock, q.clock, q.clock + t.beforeSend);
      if q.clock >= deadline {
        exit := Some(WindowClosed);
      } else if !t.sendOk {
        q := q.(clock := send.at + t.inSend);
        exit := Some(SendFailed);
      } else {
        PacedExtends(q.sends, send, start, period, send.at + t.inSend, deadline);
        q := q.(sends := q.sends + [send], seqNo := q.seqNo + 1, slot := q.slot + 1, clock := send.at + t.inSend);
      }
    }
  }

  /** How many expired slots to skip: the chosen slot is the one whose period contains the present, or a later one. */
  method ChooseSlot(start: nat, period: nat, slot: nat, now: nat) returns (late: bool, skip: nat)
    requires period > 0
    ensures late <==> now > start + slot * period
    ensures skip == Skippable(start, period, slot, now)
    ensures skip > 0 ==> late && start + (slot + skip) * period <= now
    ensures now < start + (slot + skip + 1) * period
  {
    var slotDeadline := start + slot * period;
    late, skip := now > slotDeadline, 0;
    NextSlotIsLater(slot, slot + 1, period);
    if late {
      var lateness := now - slotDeadline;
      skip := lateness / period;
      SkipLands(start, slot, period, lateness);
    }
  }

  lemma SkipExtends(skips: seq<Skip>, s: Skip, start: nat, period: nat)
    requires Expired(skips, start, period) && HasPassed(s, start, period)
    ensures Expired(skips + [s], start, period) && SkippedSlots(skips + [s]) == SkippedSlots(skips) + s.count
  {
    assert (skips + [s])[..|skips|] == skips;
  }

  lemma PacedExtends(sends: seq<Send>, s: Send, start: nat, period: nat, clock: nat, deadline: nat)
    requires Paced(sends, start, period) && BoundedBy(sends, s.slot, s.chosenAt, deadline)
    requires InSlot(s, |sends|, start, period) && s.chosenAt <= s.at <= clock && s.checkedAt < deadline
    ensures Paced(sends + [s], start, period) && BoundedBy(sends + [s], s.slot + 1, clock, deadline)
  {
    var all := sends + [s];
    forall i | 0 <= i < |all|
      ensures InSlot(all[i], i, start, period)
    {
      assert i < |sends| ==> all[i] == sends[i] && InSlot(sends[i], i, start, period);
    }
    forall i, j | 0 <= i < j < |all|
      ensures InOrder(all[i], all[j])
    {
      assert all[i] == sends[i];
    }
  }

  // ----- arithmetic of slots

  lemma PeriodIsPositive(pps: nat)
    requires 0 < pps <= NS_PER_S
    ensures 0 < Period(pps) && Period(pps) * pps <= NS_PER_S
  {
    var q := NS_PER_S / pps;
    assert NS_PER_S == pps * q + NS_PER_S % pps;
    if q == 0 { assert false; }
  }

  /** The period is the longest whole number of nanoseconds of which pps fit into a second. */
  lemma PeriodIsRounded(pps: nat)
    requires pps > 0
    ensures Period(pps) * pps <= NS_PER_S < (Period(pps) + 1) * pps
    ensures NS_PER_S == Period(pps) * pps + NS_PER_S % pps
  {
    var q := NS_PER_S / pps;
    assert NS_PER_S == pps * q + NS_PER_S % pps;
    assert (q + 1) * pps == q * pps + pps;
  }

  lemma NextSlotIsLater(s: nat, s': nat, period: nat)
    requires s < s'
    ensures s * period + period <= s' * period
  {
    Distribute(s, 1, period);
    MulMono(s + 1, s', period);
  }

  /** Skipping by whole periods lands on the slot whose period contains the current time. */
  lemma SkipLands(start: nat, slot: nat, period: nat, lateness: nat)
    requires period > 0
    ensures (slot + lateness / period) * period <= slot * period + lateness < (slot + lateness / period + 1) * period
  {
    var n := lateness / period;
    assert lateness == period * n + lateness % period;
    assert (slot + n) * period == slot * period + period * n;
    assert (slot + n + 1) * period == (slot + n) * period + period;
  }

  lemma OutsideMeansEnoughSlots(pps: nat, duration: nat, slot: nat)
    requires 0 < pps <= NS_PER_S && slot * Period(pps) >= duration * NS_PER_S
    ensures slot >= pps * duration >= Target(pps, duration)
  {
    var period, budget := Period(pps), pps * duration;
    PeriodIsPositive(pps);
    assert budget * period <= duration * NS_PER_S by {
      assert budget * period == duration * (period * pps);
      assert duration * (period * pps) <= duration * NS_PER_S;
    }
    if slot < budget {
      NextSlotIsLater(slot, budget, period);
    }
    TargetIsBounded(pps, duration);
  }

  lemma TargetIsBounded(pps: nat, duration: nat)
    ensures Target(pps, duration) <= pps * duration
    ensures Target(pps, duration) < UINT32
  {
    var full := pps * duration - pps * duration % 8;
    assert full % UINT32 <= full;
  }

  lemma NarrowingOf(raw: nat)
    ensures (raw - raw % 8) % UINT32 % 8 == 0
    ensures (raw - raw % 8) % UINT32 == raw / 8 * 8 <==> raw < UINT32
  {
    var even := raw - raw % 8;
    assert even == raw / 8 * 8;
    assert even == even / UINT32 * UINT32 + even % UINT32;
  }

  /** The documented workload, the largest multiple of 8 not above pps * duration, is kept exactly when it
      fits 32 bits. */
  lemma TargetIsDocumentedIffItFits(pps: nat, duration: nat)
    ensures Target(pps, duration) % 8 == 0
    ensures Target(pps, duration) == pps * duration / 8 * 8 <==> pps * duration < UINT32
  {
    NarrowingOf(pps * duration);
  }

  /** A configuration the generator accepts and then sends nothing for. */
  lemma TargetCanWrapToZero()
    ensures Target(65536, 65536) == 0
  {
  }

  // ----- no catch-up bursts

  /** The number of sends whose time lies in [t, t + w). */
  ghost function CountIn(sends: seq<Send>, t: nat, w: nat): nat {
    if sends == [] then 0
    else
      var last := sends[|sends| - 1].at;
      CountIn(sends[..|sends| - 1], t, w) + if t <= last < t + w then 1 else 0
  }

  function CeilDiv(x: nat, y: nat): nat
    requires y > 0
  {
    (x + y - 1) / y
  }

  /** Sends i..j of one window: the second one already had to wait for its slot, so the rest are a period apart. */
  lemma SpreadOverWindow(sends: seq<Send>, start: nat, period: nat, i: nat, j: nat, w: nat)
    requires period > 0 && Paced(sends, start, period) && i <= j < |sends|
    requires sends[j].at < sends[i].at + w
    ensures j - i + 1 <= CeilDiv(w, period) + 2
  {
    if j >= i + 2 {
      SlotsGrow(sends, start, period, i + 1, j);
      var gap := j - i - 1;
      var s1 := sends[i + 1].slot;
      assert sends[j].slot >= s1 + gap;
      MulMono(s1 + gap, sends[j].slot, period);
      assert (s1 + gap) * period == (s1 + 1) * period + (gap - 1) * period by {
        assert s1 + gap == (s1 + 1) + (gap - 1);
        Distribute(s1 + 1, gap - 1, period);
      }
      assert (gap - 1) * period < w;
      BelowCeiling(gap - 1, period, w);
    }
  }

  lemma Distribute(x: nat, y: nat, p: nat)
    ensures (x + y) * p == x * p + y * p
  {
  }

  lemma MulMono(x: nat, y: nat, p: nat)
    requires x <= y
    ensures x * p <= y * p
  {
    Distribute(x, y - x, p);
  }

  lemma BelowCeiling(n: nat, p: nat, w: nat)
    requires p > 0 && n * p < w
    ensures n < CeilDiv(w, p)
  {
    var q := CeilDiv(w, p);
    assert w + p - 1 == p * q + (w + p - 1) % p;
    if q <= n {
      MulMono(q, n, p);
    }
  }

  lemma {:induction false} SlotsGrow(sends: seq<Send>, start: nat, period: nat, i: nat, j: nat)
    requires Paced(sends, start, period) && i <= j < |sends|
    ensures sends[j].slot >= sends[i].slot + (j - i)
    decreases j
  {
    if i < j {
      SlotsGrow(sends, start, period, i, j - 1);
      assert sends[j - 1].slot < sends[j].slot;
    }
  }

  lemma {:induction false} CountIsContiguous(sends: seq<Send>, start: nat, period: nat, t: nat, w: nat, n: nat)
    returns (first: nat)
    requires Paced(sends, start, period) && n <= |sends|
    ensures CountIn(sends[..n], t, w) > 0 ==>
              first < n && t <= sends[first].at && CountIn(sends[..n], t, w) <= n - first
  {
    first := 0;
    if n > 0 {
      first := CountIsContiguous(sends, start, period, t, w, n - 1);
      assert sends[..n][..n - 1] == sends[..n - 1];
      if CountIn(sends[..n - 1], t, w) == 0 {
        first := n - 1;
      }
    }
  }

  lemma {:induction false} LastInWindow(sends: seq<Send>, t: nat, w: nat, n: nat) returns (m: nat)
    requires n <= |sends|
    ensures m <= n && CountIn(sends[..n], t, w) == CountIn(sends[..m], t, w)
    ensures m == 0 || t <= sends[m - 1].at < t + w
  {
    m := n;
    if n > 0 && !(t <= sends[n - 1].at < t + w) {
      m := LastInWindow(sends, t, w, n - 1);
      assert sends[..n][..n - 1] == sends[..n - 1];
    }
  }

  /** No catch-up bursts: whatever the clock did, a window of length w holds at most ceil(w / period) + 2 sends. */
  lemma NoCatchUpBursts(sends: seq<Send>, start: nat, period: nat, t: nat, w: nat)
    requires period > 0 && Paced(sends, start, period)
    ensures CountIn(sends, t, w) <= CeilDiv(w, period) + 2
  {
    assert sends[..|sends|] == sends;
    var m := LastInWindow(sends, t, w, |sends|);
    var first := CountIsContiguous(sends, start, period, t, w, m);
    if CountIn(sends[..m], t, w) > 0 {
      SpreadOverWindow(sends, start, period, first, m - 1, w);
    }
  }

  /** A machine that is busy for eight periods, wakes up late once, and is on time from then on. */
  function SlowStart(n: nat): Trip {
    if n == 0 then Trip(0, 80, 19, 0, 0, 0, true) else Trip(0, 0, 0, 0, 0, 0, true)
  }

  /** The first three trips of that machine. */
  lemma SlowStartTrips(target: nat, deadline: nat) returns (p: Progress)
    requires target > 2 && deadline > 110
    ensures After(3, SlowStart, target, 10, 0, deadline) == (p, None)
    ensures p.sends == [Send(0, 8, 80, 99, 99), Send(1, 9, 99, 99, 99), Send(2, 10, 99, 100, 100)]
  {
    var s0, s1, s2 := Send(0, 8, 80, 99, 99), Send(1, 9, 99, 99, 99), Send(2, 10, 99, 100, 100);
    var skips := [Skip(0, 8, 80)];
    var p0, p1 := Progress([], [], 0, 0, 0, 0, 0), Progress([s0], skips, 1, 9, 8, 1, 99);
    var p2 := Progress([s0, s1], skips, 2, 10, 8, 2, 99);
    p := Progress([s0, s1, s2], skips, 3, 11, 8, 2, 100);
    assert [] + skips == skips && [] + [s0] == [s0] && [s0] + [s1] == [s0, s1] && [s0, s1] + [s2] == [s0, s1, s2];
    assert Skippable(0, 10, 0, 80) == 8;
    assert OneTrip(p0, SlowStart(0), target, 10, 0, deadline) == (p1, None);
    assert OneTrip(p1, SlowStart(1), target, 10, 0, deadline) == (p2, None);
    assert OneTrip(p2, SlowStart(2), target, 10, 0, deadline) == (p, None);
    NextTrip(0, SlowStart, target, 10, 0, deadline);
    NextTrip(1, SlowStart, target, 10, 0, deadline);
    NextTrip(2, SlowStart, target, 10, 0, deadline);
  }

  /** The bound is met in a run of the loop: a send delayed by nearly a period, the next slot at once, and the one
      after on time. */
  lemma BurstBoundIsTight(target: nat, deadline: nat)
    requires target > 2 && deadline > 110
    ensures var (p, exit) := After(3, SlowStart, target, 10, 0, deadline);
      exit.None? && CountIn(p.sends, 99, 2) == CeilDiv(2, 10) + 2
  {
    var p := SlowStartTrips(target, deadline);
    var sends := p.sends;
    assert sends[..2][..1] == [sends[0]] && sends[..2][..1][..0] == [];
    assert CountIn(sends[..2][..1], 99, 2) == 1;
    assert CountIn(sends[..2], 99, 2) == 2;
  }
}
