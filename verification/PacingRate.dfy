/** The sending rate of the traffic generator. */
module PacingRate {
  import opened Base
  import opened Pacer

  // ----- never too many

  lemma CeilOfPeriods(p: nat, n: nat, rest: nat)
    requires p > 0
    ensures CeilDiv(p * n + rest, p) == n + CeilDiv(rest, p)
  {
    var x := rest + p - 1;
    var q := x / p;
    assert x == p * q + x % p;
    assert p * n + x == p * (n + q) + x % p by {
      assert p * (n + q) == p * n + p * q;
    }
    QuotientIs(p * n + x, p, n + q, x % p);
  }

  lemma QuotientIs(x: nat, p: nat, q: nat, r: nat)
    requires p > 0 && x == p * q + r && r < p
    ensures x / p == q
  {
    var d := x / p;
    assert x == p * d + x % p;
    if d < q {
      NextSlotIsLater(d, q, p);
    } else if d > q {
      NextSlotIsLater(q, d, p);
    }
  }

  /** In any second of a paced run at most pps + 2 packets are sent, and as many more as periods begin in what is left
      of a second behind pps of them. */
  lemma SecondHoldsAtMost(sends: seq<Send>, start: nat, pps: nat, t: nat)
    requires 0 < pps <= NS_PER_S && Period(pps) > 0 && Paced(sends, start, Period(pps))
    ensures CountIn(sends, t, NS_PER_S) <= pps + 2 + CeilDiv(NS_PER_S % pps, Period(pps))
  {
    NoCatchUpBursts(sends, start, Period(pps), t, NS_PER_S);
    PeriodIsRounded(pps);
    CeilOfPeriods(Period(pps), pps, NS_PER_S % pps);
  }

  /** Up to 31622 packets per second that is at most one more. */
  lemma SecondHoldsThreeMore(sends: seq<Send>, start: nat, pps: nat, t: nat)
    requires 0 < pps && pps * pps <= NS_PER_S && Period(pps) > 0 && Paced(sends, start, Period(pps))
    ensures CountIn(sends, t, NS_PER_S) <= pps + 3
  {
    assert pps <= NS_PER_S by {
      MulMono(1, pps, pps);
    }
    SecondHoldsAtMost(sends, start, pps, t);
    PeriodIsRounded(pps);
    if Period(pps) < pps {
      MulMono(Period(pps) + 1, pps, pps);
    }
    AtMostOne(NS_PER_S % pps, Period(pps));
  }

  lemma AtMostOne(x: nat, p: nat)
    requires p > 0 && x <= p
    ensures CeilDiv(x, p) <= 1
  {
    if CeilDiv(x, p) >= 2 {
      assert x + p - 1 == p * CeilDiv(x, p) + (x + p - 1) % p;
      MulMono(2, CeilDiv(x, p), p);
    }
  }

  // ----- never too few, on a punctual machine

  /** Every trip takes less than a period besides its waiting, and nothing fails. */
  ghost predicate Punctual(trip: nat -> Trip, period: nat) {
    forall k ::
      && trip(k).sleepRc == 0 && trip(k).sendOk
      && trip(k).beforeHead + trip(k).beforeCheck + trip(k).oversleep + trip(k).beforeSend + trip(k).inSend < period
  }

  /** So far slot k carried packet k, within its own period. */
  ghost predicate OnTime(p: Progress, n: nat, start: nat, period: nat) {
    && |p.sends| == n && p.seqNo == n && p.slot == n && p.skips == [] && p.missed == 0
    && p.clock <= start + n * period
    && forall k :: 0 <= k < n ==> SentInSlot(p.sends[k], k, start, period)
  }

  ghost predicate SentInSlot(s: Send, k: nat, start: nat, period: nat) {
    s.seqNo == k && s.slot == k && start + k * period <= s.at < start + k * period + period
  }

  lemma NothingToSkip(start: nat, period: nat, slot: nat, now: nat)
    requires period > 0 && now < start + slot * period + period
    ensures Skippable(start, period, slot, now) == 0
  {
    if now > start + slot * period {
      QuotientIs(now - start - slot * period, period, 0, now - start - slot * period);
    }
  }

  lemma TripOnTime(p: Progress, n: nat, t: Trip, target: nat, period: nat, start: nat, deadline: nat)
    requires period > 0 && OnTime(p, n, start, period) && n < target && start + (n + 1) * period <= deadline
    requires t.sleepRc == 0 && t.sendOk
    requires t.beforeHead + t.beforeCheck + t.oversleep + t.beforeSend + t.inSend < period
    ensures var (q, exit) := OneTrip(p, t, target, period, start, deadline);
      exit.None? && OnTime(q, n + 1, start, period)
  {
    assert (n + 1) * period == n * period + period by { Distribute(n, 1, period); }
    NothingToSkip(start, period, n, p.clock + t.beforeHead + t.beforeCheck);
  }

  /** After n trips, n packets have been sent, each in its own slot. */
  lemma {:induction false} AllOnTime(n: nat, trip: nat -> Trip, target: nat, period: nat, start: nat, deadline: nat)
    requires period > 0 && Punctual(trip, period) && n <= target && start + target * period <= deadline
    ensures var (p, exit) := After(n, trip, target, period, start, deadline);
      exit.None? && OnTime(p, n, start, period)
  {
    if n == 0 {
    } else {
      AllOnTime(n - 1, trip, target, period, start, deadline);
      NextTrip(n - 1, trip, target, period, start, deadline);
      MulMono(n, target, period);
      TripOnTime(After(n - 1, trip, target, period, start, deadline).0, n - 1, trip(n - 1), target, period, start,
                 deadline);
    }
  }

  /** Once left, the loop stays left. */
  lemma {:induction false} LeftForGood(n: nat, k: nat, trip: nat -> Trip, target: nat, period: nat, start: nat,
                                       deadline: nat)
    requires period > 0 && n <= k && After(n, trip, target, period, start, deadline).1.Some?
    ensures After(k, trip, target, period, start, deadline).1.Some?
    decreases k
  {
    if n == k {
    } else {
      LeftForGood(n, k - 1, trip, target, period, start, deadline);
    }
  }

  lemma WindowIsLongEnough(pps: nat, duration: nat, start: nat)
    requires 0 < pps <= NS_PER_S
    ensures start + Target(pps, duration) * Period(pps) <= Deadline(start, duration)
  {
    TargetIsBounded(pps, duration);
    PeriodIsRounded(pps);
    MulMono(Target(pps, duration), pps * duration, Period(pps));
    assert pps * duration * Period(pps) == duration * (Period(pps) * pps);
    MulMono(Period(pps) * pps, NS_PER_S, duration);
    assert duration * NS_PER_S == NS_PER_S * duration;
  }

  lemma LastTripSendsNothing(p: Progress, n: nat, t: Trip, target: nat, period: nat, start: nat, deadline: nat)
    requires period > 0 && OnTime(p, n, start, period) && n == target
    ensures var (q, exit) := OneTrip(p, t, target, period, start, deadline);
      exit.Some? && q.sends == p.sends && q.skips == p.skips
  {
  }

  /** The loop is left in the trip behind the last send. */
  lemma LeftBehindLast(trip: nat -> Trip, target: nat, period: nat, start: nat, deadline: nat, r: Report)
    requires period > 0 && Punctual(trip, period) && start + target * period <= deadline
    requires Outcome(r.trips, trip, target, period, start, deadline) == Some(r)
    ensures r.trips == target
  {
    AllOnTime(target, trip, target, period, start, deadline);
    NextTrip(target, trip, target, period, start, deadline);
    LastTripSendsNothing(After(target, trip, target, period, start, deadline).0, target, trip(target), target, period,
                         start, deadline);
    if r.trips < target {
      AllOnTime(r.trips + 1, trip, target, period, start, deadline);
    } else if r.trips > target {
      LeftForGood(target + 1, r.trips, trip, target, period, start, deadline);
    }
  }

  /** On a punctual machine the generator sends its whole workload: packet k in slot k, which begins k periods after the
      start. */
  lemma PunctualRunIsComplete(pps: nat, duration: nat, start: nat, trip: nat -> Trip, r: Report)
    requires 0 < pps <= NS_PER_S && Period(pps) > 0 && Punctual(trip, Period(pps))
    requires Outcome(r.trips, trip, Target(pps, duration), Period(pps), start, Deadline(start, duration)) == Some(r)
    ensures |r.sends| == Target(pps, duration) && r.skips == []
    ensures forall k :: 0 <= k < |r.sends| ==> SentInSlot(r.sends[k], k, start, Period(pps))
  {
    var target, period, deadline := Target(pps, duration), Period(pps), Deadline(start, duration);
    WindowIsLongEnough(pps, duration, start);
    LeftBehindLast(trip, target, period, start, deadline, r);
    AllOnTime(target, trip, target, period, start, deadline);
    NextTrip(target, trip, target, period, start, deadline);
    LastTripSendsNothing(After(target, trip, target, period, start, deadline).0, target, trip(target), target, period,
                         start, deadline);
  }

  // ----- lateness

  /** A trip that gets as far as choosing its slot, and finds that the next one has begun. */
  predicate IsLate(p: Progress, t: Trip, target: nat, period: nat, start: nat, deadline: nat) {
    && p.clock + t.beforeHead < deadline && p.seqNo < target && start + p.slot * period < deadline
    && p.clock + t.beforeHead + t.beforeCheck > start + p.slot * period
  }

  /** The late trips among the first n. */
  function LateTrips(n: nat, trip: nat -> Trip, target: nat, period: nat, start: nat, deadline: nat): nat
    requires period > 0
  {
    if n == 0 then 0
    else
      var before := After(n - 1, trip, target, period, start, deadline);
      LateTrips(n - 1, trip, target, period, start, deadline)
      + if before.1.None? && IsLate(before.0, trip(n - 1), target, period, start, deadline) then 1 else 0
  }

  lemma OneTripCountsLate(p: Progress, t: Trip, target: nat, period: nat, start: nat, deadline: nat)
    requires period > 0
    ensures OneTrip(p, t, target, period, start, deadline).0.late ==
            p.late + if IsLate(p, t, target, period, start, deadline) then 1 else 0
  {
  }

  lemma {:induction false} LateTripsAreCounted(n: nat, trip: nat -> Trip, target: nat, period: nat, start: nat,
                                               deadline: nat)
    requires period > 0
    ensures After(n, trip, target, period, start, deadline).0.late ==
            LateTrips(n, trip, target, period, start, deadline)
  {
    if n == 0 {
    } else {
      LateTripsAreCounted(n - 1, trip, target, period, start, deadline);
      OneTripCountsLate(After(n - 1, trip, target, period, start, deadline).0, trip(n - 1), target, period, start,
                        deadline);
    }
  }

  /** The report counts exactly the trips that found their slot begun. */
  lemma LatenessIsReported(trip: nat -> Trip, target: nat, period: nat, start: nat, deadline: nat, r: Report)
    requires period > 0 && Outcome(r.trips, trip, target, period, start, deadline) == Some(r)
    ensures r.lateCount == LateTrips(r.trips + 1, trip, target, period, start, deadline)
  {
    LateTripsAreCounted(r.trips + 1, trip, target, period, start, deadline);
  }
}
