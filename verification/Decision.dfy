/** The Decision Engine: the path of a symbol, and the shape of a block. */
module Decision {
  import opened Base
  import opened Lcg

  // Metrics are reals; any values may be fed in at any time.

  datatype Path = PathA | PathB
  datatype Policy = DefaultPolicy | QualityPolicy | AdaptivePolicy
  datatype LinkMetrics = LinkMetrics(loss: real, rttMs: real)
  datatype Metrics = Metrics(a: LinkMetrics, b: LinkMetrics)

  const NO_METRICS := Metrics(LinkMetrics(0.0, 0.0), LinkMetrics(0.0, 0.0))

  /** Engine state. `rr` and `rand` are 32-bit words; sizes and counts are 16-bit. */
  datatype Engine =
    | Default(fixedK: nat, fixedRepairs: nat)
    | Quality(metrics: Metrics, rr: nat, baseK: nat, minRepairs: nat, maxRepairs: nat)
    | Adaptive(metrics: Metrics, rand: nat, baseK: nat, minRepairs: nat, maxRepairs: nat)

  /** The engine that the host creates for a validated configuration. */
  function Configure(policy: Policy, blockSize: nat, repairs: nat, seed: nat): Engine {
    var ceiling := if repairs > 0 then repairs else 2;
    match policy
    case DefaultPolicy => Default(blockSize, repairs)
    case QualityPolicy => Quality(NO_METRICS, 0, blockSize, 2, ceiling)
    case AdaptivePolicy => Adaptive(NO_METRICS, seed, blockSize, 1, ceiling)
  }

  function UpdateMetrics(e: Engine, m: Metrics): Engine {
    if e.Default? then e else e.(metrics := m)
  }

  function AverageLoss(m: Metrics): real {
    0.5 * (m.a.loss + m.b.loss)
  }

  function Half(x: nat, y: nat): nat { (x + y) / 2 }

  function DecideRepairs(e: Engine): nat {
    match e
    case Default(_, repairs) => repairs
    case Quality(m, _, _, lo, hi) =>
      var loss := AverageLoss(m);
      if loss <= 0.0 then Half(lo, hi)
      else if loss < 0.005 then lo
      else if loss < 0.02 then Half(lo, hi)
      else hi
    case Adaptive(m, _, _, r0, r1) =>
      var lo, hi := if r1 < r0 then r1 else r0, if r1 < r0 then r0 else r1;
      var loss := AverageLoss(m);
      if loss <= 0.001 then lo else if loss <= 0.01 then Half(lo, hi) else hi
  }

  function DecideBlockSize(e: Engine): nat {
    match e
    case Default(k, _) => k
    case Quality(m, _, k, _, _) =>
      if 0.0 < AverageLoss(m) < 0.01 then (2 * k) % 0x1_0000 else k
    case Adaptive(m, _, k, _, _) =>
      if AverageLoss(m) <= 0.002 then (2 * k) % 0x1_0000 else k
  }

  /** The guardrail around DecideBlockSize where a block is opened. */
  function GuardedBlockSize(e: Engine, blockSize: nat): nat {
    var k := DecideBlockSize(e);
    if k == 0 || k > blockSize then blockSize else k
  }

  // ----- path choice

  function AtLeast(x: real, floor: real): real {
    if x < floor then floor else x
  }

  /** The cost whose inverse is a link's score, after clamping loss and RTT from below. */
  function Cost(m: LinkMetrics): (c: real)
    ensures c > 1.0
  {
    (if m.loss < 0.0001 then 0.0001 else m.loss) * 100.0 + (if m.rttMs < 1.0 then 1.0 else m.rttMs)
  }

  function Score(m: LinkMetrics): real {
    1.0 / Cost(m)
  }

  /** The adaptive pick without divisions: `draw` is the generator state after the draw. */
  function AdaptivePick(m: Metrics, draw: nat): Path {
    if Low(draw) as real * (Cost(m.a) + Cost(m.b)) < WINDOW as real * Cost(m.b) then PathA else PathB
  }

  function Pick(e: Engine, symIndex: nat): Path {
    match e
    case Default(_, _) => if symIndex % 2 == 1 then PathB else PathA
    case Quality(m, rr, _, _, _) =>
      if m.a.loss == 0.0 && m.b.loss == 0.0 then (if rr % 2 == 1 then PathB else PathA)
      else if m.a.loss <= m.b.loss then PathA else PathB
    case Adaptive(m, rand, _, _, _) => AdaptivePick(m, Next(rand))
  }

  function AfterPick(e: Engine): Engine {
    match e
    case Default(_, _) => e
    case Quality(m, rr, _, _, _) =>
      if m.a.loss == 0.0 && m.b.loss == 0.0 then e.(rr := (rr + 1) % WORD) else e
    case Adaptive(_, rand, _, _, _) => e.(rand := Next(rand))
  }

  lemma ScoresMeetCosts(ca: real, cb: real, low: real, window: real)
    requires ca > 0.0 && cb > 0.0 && window > 0.0
    ensures 1.0 / ca > 0.0 && 1.0 / cb > 0.0
    ensures low / window < (1.0 / ca) / (1.0 / ca + 1.0 / cb) <==> low * (ca + cb) < window * cb
  {
    var sa, sb := 1.0 / ca, 1.0 / cb;
    assert sa * ca == 1.0 && sb * cb == 1.0;
    PositiveInverse(sa, ca);
    PositiveInverse(sb, cb);
    var p := sa / (sa + sb);
    assert p * (ca + cb) == cb by { Share(sa, sb, ca, cb, p); }
    var u := low / window;
    assert u * window == low;
    CompareScaled(u, p, window * (ca + cb));
    assert u * (window * (ca + cb)) == low * (ca + cb);
    assert p * (window * (ca + cb)) == window * (p * (ca + cb));
  }

  lemma PositiveInverse(s: real, c: real)
    requires s * c == 1.0 && c > 0.0
    ensures s > 0.0
  {
  }

  lemma Share(sa: real, sb: real, ca: real, cb: real, p: real)
    requires sa * ca == 1.0 && sb * cb == 1.0 && p * (sa + sb) == sa
    requires sa > 0.0 && sb > 0.0
    ensures p * (ca + cb) == cb
  {
    assert (p * (sa + sb)) * (ca * cb) == p * (cb * (sa * ca) + ca * (sb * cb));
    assert sa * (ca * cb) == (sa * ca) * cb;
  }

  lemma CompareScaled(u: real, p: real, c: real)
    requires c > 0.0
    ensures u < p <==> u * c < p * c
  {
    assert (p - u) * c == p * c - u * c;
  }

  /** Path A is chosen exactly if the draw, of 2^24, lies below its share, when a path weighs 100 times its loss plus
      its RTT, each raised to its floor. */
  predicate PicksByMetrics(path: Path, m: Metrics, draw: nat) {
    var weightA := 100.0 * AtLeast(m.a.loss, 0.0001) + AtLeast(m.a.rttMs, 1.0);
    var weightB := 100.0 * AtLeast(m.b.loss, 0.0001) + AtLeast(m.b.rttMs, 1.0);
    path == PathA <==> draw as real * (weightA + weightB) < 16777216.0 * weightB
  }

  lemma PickIsByMetrics(m: Metrics, draw: nat)
    ensures PicksByMetrics(AdaptivePick(m, draw), m, Low(draw))
  {
  }

  /** The engine object of the host; its methods follow the program branch by branch. */
  class DecisionEngine {
    var state: Engine

    constructor (policy: Policy, blockSize: nat, repairs: nat, seed: nat)
      ensures state == Configure(policy, blockSize, repairs, seed)
    {
      state := Configure(policy, blockSize, repairs, seed);
    }

    method UpdateLinkMetrics(m: Metrics)
      modifies this
      ensures state == UpdateMetrics(old(state), m)
    {
      state := UpdateMetrics(state, m);
    }

    method ChooseIface(symIndex: nat) returns (path: Path)
      modifies this
      ensures path == Pick(old(state), symIndex)
      ensures state == AfterPick(old(state))
    {
      match state {
        case Default(_, _) =>
          path := if symIndex % 2 == 1 then PathB else PathA;
        case Quality(m, rr, _, _, _) =>
          if m.a.loss == 0.0 && m.b.loss == 0.0 {
            path := if rr % 2 == 1 then PathB else PathA;
            state := state.(rr := (rr + 1) % WORD);
          } else {
            path := if m.a.loss <= m.b.loss then PathA else PathB;
          }
        case Adaptive(_, _, _, _, _) =>
          path := AdaptiveChooseIface();
      }
    }

    /** The scored draw. Both fallbacks of the program test for scores that are not positive. */
    method AdaptiveChooseIface() returns (path: Path)
      requires state.Adaptive?
      modifies this
      ensures path == AdaptivePick(old(state.metrics), Next(old(state.rand)))
      ensures state == old(state).(rand := Next(old(state.rand)))
      ensures PicksByMetrics(path, old(state.metrics), Low(Next(old(state.rand))))
    {
      PickIsByMetrics(state.metrics, Next(state.rand));
      var sA, sB := Score(state.metrics.a), Score(state.metrics.b);
      ScoresMeetCosts(Cost(state.metrics.a), Cost(state.metrics.b), Low(Next(state.rand)) as real, WINDOW as real);
      if sA <= 0.0 && sB <= 0.0 {
        assert false;
      }
      var sum := sA + sB;
      if sum <= 0.0 {
        assert false;
      }
      var pA := sA / sum;
      state := state.(rand := Next(state.rand));
      var u := Low(state.rand) as real / WINDOW as real;
      path := if u < pA then PathA else PathB;
    }
  }

  // ----- the split is exactly proportional

  /** The next `n` choices of the adaptive policy under constant metrics, from generator state `s`. */
  function AdaptiveRun(m: Metrics, s: nat, n: nat): (r: seq<Path>)
    ensures |r| == n
  {
    if n == 0 then [] else AdaptiveRun(m, s, n - 1) + [AdaptivePick(m, StateAfter(s, n))]
  }

  function CountA(paths: seq<Path>): nat {
    if paths == [] then 0
    else CountA(paths[..|paths| - 1]) + if paths[|paths| - 1] == PathA then 1 else 0
  }

  function Ceiling(x: real): int {
    if x.Floor as real == x then x.Floor else x.Floor + 1
  }

  /** Path A's exact quota in one window of 2^24 choices. */
  function Quota(m: Metrics): int {
    Ceiling(WINDOW as real * Cost(m.b) / (Cost(m.a) + Cost(m.b)))
  }

  lemma QuotaIsThreshold(m: Metrics, draw: nat)
    ensures 0 < Quota(m) <= WINDOW
    ensures AdaptivePick(m, draw) == PathA <==> Low(draw) < Quota(m)
  {
    ShareIsThreshold(WINDOW, Cost(m.a), Cost(m.b), Low(draw));
  }

  lemma ShareIsThreshold(w: nat, ca: real, cb: real, n: int)
    requires ca > 0.0 && cb > 0.0 && w > 0
    ensures 0 < Ceiling(w as real * cb / (ca + cb)) <= w
    ensures n as real * (ca + cb) < w as real * cb <==> n < Ceiling(w as real * cb / (ca + cb))
  {
    var sum, share := ca + cb, w as real * cb;
    var q := share / sum;
    DivisionUndone(share, sum);
    ShareBounds(w as real, ca, cb, q);
    CompareScaled(n as real, q, sum);
    CeilingIsThreshold(q, n);
    CeilingIsThreshold(q, 0);
    CeilingIsThreshold(q, w);
  }

  lemma DivisionUndone(x: real, y: real)
    requires y > 0.0
    ensures x / y * y == x
  {
  }

  lemma ShareBounds(w: real, ca: real, cb: real, q: real)
    requires ca > 0.0 && cb > 0.0 && w > 0.0 && q * (ca + cb) == w * cb
    ensures 0.0 < q < w
  {
    CompareScaled(0.0, q, ca + cb);
    CompareScaled(q, w, ca + cb);
    assert w * (ca + cb) == w * ca + w * cb;
    assert w * ca > 0.0 && w * cb > 0.0;
  }

  lemma CeilingIsThreshold(q: real, n: int)
    ensures n as real < q <==> n < Ceiling(q)
  {
  }

  lemma PickFollowsOrbit(m: Metrics, s: nat, n: nat)
    requires n > 0
    ensures AdaptivePick(m, StateAfter(s, n)) == PathA <==>
            Orbit(s * MULTIPLIER + INCREMENT, n - 1) % WINDOW < Quota(m)
  {
    StateFollowsOrbit(s, n);
    OrbitCompose(s, 1, n - 1);
    assert Orbit(s, 1) == Orbit(s, 0) * MULTIPLIER + INCREMENT;
    QuotaIsThreshold(m, StateAfter(s, n));
  }

  lemma {:induction false} RunCountsOrbit(m: Metrics, s: nat, n: nat)
    ensures CountA(AdaptiveRun(m, s, n)) == CountBelow(s * MULTIPLIER + INCREMENT, n, WINDOW, Quota(m))
  {
    if n == 0 {
    } else {
      RunCountsOrbit(m, s, n - 1);
      var run := AdaptiveRun(m, s, n);
      assert run[..n - 1] == AdaptiveRun(m, s, n - 1);
      PickFollowsOrbit(m, s, n);
    }
  }

  /** For constant metrics, any 2^24 consecutive choices, from any generator state, give path A exactly its quota. */
  lemma AdaptiveSplitIsExact(m: Metrics, s: nat)
    ensures CountA(AdaptiveRun(m, s, WINDOW)) == Quota(m)
  {
    RunCountsOrbit(m, s, WINDOW);
    QuotaIsThreshold(m, 0);
    WindowIsPow2();
    FullPeriodCount(s * MULTIPLIER + INCREMENT, WINDOW_BITS, Quota(m));
  }

  /** AdaptiveRun is what the engine object produces: one pick is the head, the rest starts from the drawn state. */
  lemma {:induction false} RunIsRepeatedPick(e: Engine, n: nat)
    requires e.Adaptive? && n > 0
    ensures AdaptiveRun(e.metrics, e.rand, n) ==
            [Pick(e, 0)] + AdaptiveRun(e.metrics, AfterPick(e).rand, n - 1)
  {
    if n > 1 {
      RunIsRepeatedPick(e, n - 1);
      StateAfterCompose(e.rand, 1, n - 1);
      assert StateAfter(e.rand, 1) == Next(StateAfter(e.rand, 0));
    } else {
      assert StateAfter(e.rand, 1) == Next(StateAfter(e.rand, 0));
    }
  }

  // ----- what every policy guarantees to the block builder

  /** Everything that can happen to an engine between two blocks. */
  datatype EngineEvent = Metric(m: Metrics) | Symbol

  function EngineAfter(e: Engine, evs: seq<EngineEvent>): Engine {
    if evs == [] then e
    else
      var e' := EngineAfter(e, evs[..|evs| - 1]);
      match evs[|evs| - 1]
      case Metric(m) => UpdateMetrics(e', m)
      case Symbol => AfterPick(e')
  }

  lemma {:induction false} SettingsNeverChange(e: Engine, evs: seq<EngineEvent>)
    ensures var e' := EngineAfter(e, evs);
      && (e.Default? ==> e' == e)
      && (e.Quality? ==>
          e'.Quality? && (e'.baseK, e'.minRepairs, e'.maxRepairs) == (e.baseK, e.minRepairs, e.maxRepairs))
      && (e.Adaptive? ==>
          e'.Adaptive? && (e'.baseK, e'.minRepairs, e'.maxRepairs) == (e.baseK, e.minRepairs, e.maxRepairs))
  {
    if evs == [] {
    } else {
      SettingsNeverChange(e, evs[..|evs| - 1]);
    }
  }

  /** Under every policy, seed and history of metrics and choices: the doubled block size never survives the
      guardrail, and a block gets at most the configured repairs (or the policy's own floor of 2). */
  lemma BlockShapeIsBounded(policy: Policy, blockSize: nat, repairs: nat, seed: nat, evs: seq<EngineEvent>)
    requires 1 <= blockSize <= K && repairs <= MAX_PARITY
    ensures var e := EngineAfter(Configure(policy, blockSize, repairs, seed), evs);
      && GuardedBlockSize(e, blockSize) == blockSize
      && DecideRepairs(e) <= (if repairs > 2 then repairs else 2)
      && GuardedBlockSize(e, blockSize) + DecideRepairs(e) <= K + MAX_PARITY
      && (policy.DefaultPolicy? ==> DecideRepairs(e) == repairs)
      && (!policy.DefaultPolicy? ==> DecideRepairs(e) >= 1)
  {
    SettingsNeverChange(Configure(policy, blockSize, repairs, seed), evs);
  }

  /** Whatever happens, a block never gets more repairs than were configured. */
  ghost predicate StaysWithin(policy: Policy, blockSize: nat, repairs: nat) {
    forall seed, evs :: DecideRepairs(EngineAfter(Configure(policy, blockSize, repairs, seed), evs)) <= repairs
  }

  /** One report of little but measurable loss: the quality policy asks for its minimum. */
  lemma QualityMinimum(blockSize: nat, repairs: nat, seed: nat) returns (evs: seq<EngineEvent>)
    ensures DecideRepairs(EngineAfter(Configure(QualityPolicy, blockSize, repairs, seed), evs)) == 2
  {
    var m := Metrics(LinkMetrics(0.002, 1.0), LinkMetrics(0.002, 1.0));
    evs := [Metric(m)];
    var e := Configure(QualityPolicy, blockSize, repairs, seed);
    assert evs[..0] == [] && EngineAfter(e, []) == e;
  }

  /** The policies' own minimum of repairs overrides the configuration: it is respected in every history exactly by the
      default policy, by the quality policy from two configured repairs on, and by the adaptive policy from one on. */
  lemma RepairsStayWithinIff(policy: Policy, blockSize: nat, repairs: nat)
    requires 1 <= blockSize <= K && repairs <= MAX_PARITY
    ensures StaysWithin(policy, blockSize, repairs) <==>
            policy.DefaultPolicy? || (policy.QualityPolicy? && repairs >= 2) || (policy.AdaptivePolicy? && repairs >= 1)
  {
    if policy.DefaultPolicy? || (policy.QualityPolicy? && repairs >= 2) || (policy.AdaptivePolicy? && repairs >= 1) {
      forall seed, evs
        ensures DecideRepairs(EngineAfter(Configure(policy, blockSize, repairs, seed), evs)) <= repairs
      {
        SettingsNeverChange(Configure(policy, blockSize, repairs, seed), evs);
      }
    } else if policy.QualityPolicy? {
      var evs := QualityMinimum(blockSize, repairs, 0);
      assert DecideRepairs(EngineAfter(Configure(policy, blockSize, repairs, 0), evs)) > repairs;
    } else {
      assert DecideRepairs(EngineAfter(Configure(policy, blockSize, repairs, 0), [])) > repairs;
    }
  }
}
