/** The three policies in terms of the link metrics. */
module Policies {
  import opened Base
  import opened Lcg
  import opened Decision

  /** The next n paths that an engine chooses. */
  function Picks(e: Engine, n: nat): (paths: seq<Path>)
    ensures |paths| == n
    decreases n
  {
    if n == 0 then [] else [Pick(e, n)] + Picks(AfterPick(e), n - 1)
  }

  // ----- adaptive: the split

  /** How many of 2^24 choices path A gets, when a path's weight is 100 times its loss plus its RTT. */
  function SplitOf(lossA: real, rttA: real, lossB: real, rttB: real): int
    requires 100.0 * lossA + rttA + 100.0 * lossB + rttB > 0.0
  {
    Ceiling(16777216.0 * (100.0 * lossB + rttB) / (100.0 * lossA + rttA + 100.0 * lossB + rttB))
  }

  lemma WindowIsSixteenMillion()
    ensures WINDOW == 16777216
  {
  }

  lemma QuotaInMetrics(m: Metrics)
    ensures var lossA, rttA := AtLeast(m.a.loss, 0.0001), AtLeast(m.a.rttMs, 1.0);
      var lossB, rttB := AtLeast(m.b.loss, 0.0001), AtLeast(m.b.rttMs, 1.0);
      100.0 * lossA + rttA + 100.0 * lossB + rttB > 0.0 && Quota(m) == SplitOf(lossA, rttA, lossB, rttB)
  {
    WindowIsSixteenMillion();
  }

  lemma {:induction false} AdaptivePicks(e: Engine, n: nat)
    requires e.Adaptive?
    ensures Picks(e, n) == AdaptiveRun(e.metrics, e.rand, n)
    decreases n
  {
    if n == 0 {
    } else {
      AdaptivePicks(AfterPick(e), n - 1);
      RunIsRepeatedPick(e, n);
    }
  }

  /** Once metrics are reported, and until the next report, any 2^24 consecutive choices of the adaptive policy give
      path A exactly its share: the one for the reported loss and RTT, each raised to its floor of 0.01 percent or 1
      ms. */
  lemma SplitInMetrics(e: Engine, m: Metrics)
    requires e.Adaptive?
    ensures var lossA, rttA := AtLeast(m.a.loss, 0.0001), AtLeast(m.a.rttMs, 1.0);
      var lossB, rttB := AtLeast(m.b.loss, 0.0001), AtLeast(m.b.rttMs, 1.0);
      100.0 * lossA + rttA + 100.0 * lossB + rttB > 0.0
      && CountA(Picks(UpdateMetrics(e, m), 16777216)) == SplitOf(lossA, rttA, lossB, rttB)
  {
    WindowIsSixteenMillion();
    AdaptivePicks(UpdateMetrics(e, m), WINDOW);
    AdaptiveSplitIsExact(m, e.rand);
    QuotaInMetrics(m);
  }

  /** Ten percent loss and 20 ms against no loss and 25 ms. */
  lemma LossyLinkGetsLess(e: Engine)
    requires e.Adaptive?
    ensures var m := Metrics(LinkMetrics(0.1, 20.0), LinkMetrics(0.0, 25.0));
      CountA(Picks(UpdateMetrics(e, m), 16777216)) == 7_627_671
  {
    SplitInMetrics(e, Metrics(LinkMetrics(0.1, 20.0), LinkMetrics(0.0, 25.0)));
    var q := 16777216.0 * (100.0 * 0.0001 + 25.0) / (100.0 * 0.1 + 20.0 + 100.0 * 0.0001 + 25.0);
    assert 7627670.0 < q < 7627671.0;
  }

  lemma CeilingGrows(x: real, y: real)
    requires x <= y
    ensures Ceiling(x) <= Ceiling(y)
  {
  }

  /** A share b of a + b falls with a and grows with b. */
  lemma ShareGrows(w: real, a: real, b: real, a': real, b': real)
    requires w > 0.0 && a > 0.0 && b > 0.0 && a' > 0.0 && b' > 0.0 && a <= a' && b' <= b
    ensures w * b' / (a' + b') <= w * b / (a + b)
  {
    var x, y := w * b / (a + b), w * b' / (a' + b');
    DivisionUndone(w * b, a + b);
    DivisionUndone(w * b', a' + b');
    ProductGrows(b', b, a);
    ProductGrows(a, a', b);
    Regrouped(w, b', a, b);
    Regrouped(w, b, a', b');
    ProductGrows(b' * a + b' * b, b * a' + b * b', w);
    CrossMultiplied(x, a + b, w * b, y, a' + b', w * b');
  }

  lemma Regrouped(w: real, x: real, y: real, z: real)
    ensures w * x * (y + z) == w * (x * y + x * z)
  {
  }

  lemma CrossMultiplied(x: real, p: real, u: real, y: real, q: real, v: real)
    requires p > 0.0 && q > 0.0 && x * p == u && y * q == v && v * p <= u * q
    ensures y <= x
  {
    assert y * (p * q) == (y * q) * p;
    assert x * (p * q) == (x * p) * q;
    NotLarger(y, x, p * q);
  }

  lemma ProductGrows(x: real, y: real, p: real)
    requires x <= y && p > 0.0
    ensures x * p <= y * p && p * x <= p * y
  {
  }

  lemma NotLarger(y: real, x: real, p: real)
    requires p > 0.0 && y * p <= x * p
    ensures y <= x
  {
    if x < y {
      CompareScaled(x, y, p);
    }
  }

  ghost predicate NotBetter(l: LinkMetrics, l': LinkMetrics) {
    l.loss <= l'.loss && l.rttMs <= l'.rttMs
  }

  lemma CostGrows(l: LinkMetrics, l': LinkMetrics)
    requires NotBetter(l, l')
    ensures Cost(l) <= Cost(l')
  {
  }

  /** More loss or RTT on path A, or less on path B, never gives path A more choices. */
  lemma WorseLinkGetsLess(e: Engine, m: Metrics, m': Metrics)
    requires e.Adaptive? && NotBetter(m.a, m'.a) && NotBetter(m'.b, m.b)
    ensures CountA(Picks(UpdateMetrics(e, m'), 16777216)) <= CountA(Picks(UpdateMetrics(e, m), 16777216))
  {
    WindowIsSixteenMillion();
    AdaptivePicks(UpdateMetrics(e, m), WINDOW);
    AdaptivePicks(UpdateMetrics(e, m'), WINDOW);
    AdaptiveSplitIsExact(m, e.rand);
    AdaptiveSplitIsExact(m', e.rand);
    QuotaFalls(m, m');
  }

  lemma QuotaFalls(m: Metrics, m': Metrics)
    requires NotBetter(m.a, m'.a) && NotBetter(m'.b, m.b)
    ensures Quota(m') <= Quota(m)
  {
    CostGrows(m.a, m'.a);
    CostGrows(m'.b, m.b);
    ShareGrows(WINDOW as real, Cost(m.a), Cost(m.b), Cost(m'.a), Cost(m'.b));
    CeilingGrows(WINDOW as real * Cost(m'.b) / (Cost(m'.a) + Cost(m'.b)),
                 WINDOW as real * Cost(m.b) / (Cost(m.a) + Cost(m.b)));
  }

  // ----- quality: the path

  function Alternating(n: nat, fromB: bool): (paths: seq<Path>)
    ensures |paths| == n
  {
    if n == 0 then [] else [if fromB then PathB else PathA] + Alternating(n - 1, !fromB)
  }

  ghost predicate AllOn(paths: seq<Path>, path: Path) {
    forall k :: 0 <= k < |paths| ==> paths[k] == path
  }

  lemma {:induction false} QualityPicks(e: Engine, n: nat)
    requires e.Quality? && !(e.metrics.a.loss == 0.0 && e.metrics.b.loss == 0.0)
    ensures AllOn(Picks(e, n), if e.metrics.a.loss <= e.metrics.b.loss then PathA else PathB)
    decreases n
  {
    if n == 0 {
    } else {
      QualityPicks(AfterPick(e), n - 1);
    }
  }

  /** After n choices. */
  function AfterPicks(e: Engine, n: nat): Engine
    decreases n
  {
    if n == 0 then e else AfterPicks(AfterPick(e), n - 1)
  }

  /** Choices by measured loss leave the turn where it is: when no loss is measured again, the paths go on alternating
      from there. */
  lemma {:induction false} MeasuredLossKeepsTurn(e: Engine, n: nat)
    requires e.Quality? && !(e.metrics.a.loss == 0.0 && e.metrics.b.loss == 0.0)
    ensures AfterPicks(e, n) == e
    decreases n
  {
    if n == 0 {
    } else {
      MeasuredLossKeepsTurn(AfterPick(e), n - 1);
    }
  }

  /** Quality policy with a measured loss: everything takes the path with the smaller loss, and path A if they are
      equal. */
  lemma QualityTakesBetterPath(e: Engine, m: Metrics, n: nat)
    requires e.Quality?
    ensures m.a.loss < m.b.loss ==> AllOn(Picks(UpdateMetrics(e, m), n), PathA)
    ensures m.b.loss < m.a.loss ==> AllOn(Picks(UpdateMetrics(e, m), n), PathB)
    ensures m.a.loss == m.b.loss != 0.0 ==> AllOn(Picks(UpdateMetrics(e, m), n), PathA)
  {
    if !(m.a.loss == 0.0 && m.b.loss == 0.0) {
      QualityPicks(UpdateMetrics(e, m), n);
    }
  }

  /** Without one, the paths alternate. */
  lemma {:induction false} QualityAlternates(e: Engine, n: nat)
    requires e.Quality? && e.metrics.a.loss == 0.0 && e.metrics.b.loss == 0.0 && e.rr < WORD
    ensures Picks(e, n) == Alternating(n, e.rr % 2 == 1)
    decreases n
  {
    if n == 0 {
    } else {
      QualityAlternates(AfterPick(e), n - 1);
    }
  }

  // ----- the number of repairs

  /** The number of repairs in terms of the two losses and of the settings of the policy: a minimum of 2 or 1 that does
      not depend on the configuration, and the configured number, or 2 if that is 0. */
  lemma RepairsInMetrics(policy: Policy, blockSize: nat, repairs: nat, seed: nat, evs: seq<EngineEvent>, m: Metrics)
    ensures var n := DecideRepairs(UpdateMetrics(EngineAfter(Configure(policy, blockSize, repairs, seed), evs), m));
      var most, loss := if repairs > 0 then repairs else 2, m.a.loss + m.b.loss;
      && (policy.DefaultPolicy? ==> n == repairs)
      && (policy.QualityPolicy? ==>
            && (0.0 < loss < 0.01 ==> n == 2) && (loss <= 0.0 || 0.01 <= loss < 0.04 ==> n == (2 + most) / 2)
            && (0.04 <= loss ==> n == most))
      && (policy.AdaptivePolicy? ==>
            && (loss <= 0.002 ==> n == 1) && (0.002 < loss <= 0.02 ==> n == (1 + most) / 2)
            && (0.02 < loss ==> n == most))
  {
    SettingsNeverChange(Configure(policy, blockSize, repairs, seed), evs);
  }

  /** No link loses less than before. */
  ghost predicate NoLessLoss(m: Metrics, m': Metrics) {
    m.a.loss <= m'.a.loss && m.b.loss <= m'.b.loss
  }

  /** With a measured loss, more loss never means fewer repairs. */
  ghost predicate RepairsGrowWithLoss(policy: Policy, blockSize: nat, repairs: nat, seed: nat) {
    forall m: Metrics, m': Metrics :: 0.0 < m.a.loss + m.b.loss && NoLessLoss(m, m') ==>
      DecideRepairs(UpdateMetrics(Configure(policy, blockSize, repairs, seed), m)) <=
      DecideRepairs(UpdateMetrics(Configure(policy, blockSize, repairs, seed), m'))
  }

  /** That is so unless the quality policy is configured with one repair, less than its own minimum. */
  lemma RepairsGrowWithLossIff(policy: Policy, blockSize: nat, repairs: nat, seed: nat)
    ensures RepairsGrowWithLoss(policy, blockSize, repairs, seed) <==> !(policy.QualityPolicy? && repairs == 1)
  {
    var e := Configure(policy, blockSize, repairs, seed);
    if policy.QualityPolicy? && repairs == 1 {
      var little, much := Metrics(LinkMetrics(0.002, 1.0), LinkMetrics(0.002, 1.0)),
                          Metrics(LinkMetrics(0.5, 1.0), LinkMetrics(0.5, 1.0));
      assert NoLessLoss(little, much);
      assert DecideRepairs(UpdateMetrics(e, little)) == 2 && DecideRepairs(UpdateMetrics(e, much)) == 1;
    }
  }
}
