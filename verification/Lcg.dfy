/** The generator behind the adaptive policy, and why its low bits have full period. */
module Lcg {
  // All arithmetic of one period is done on the unreduced orbit `Orbit(x, n)`; reduction modulo a power of two comes
  // last, because the 32-bit wrap-around of the linear congruential generator does not disturb the low bits.

  const MULTIPLIER: nat := 1103515245
  const INCREMENT: nat := 12345
  const WORD: nat := 0x1_0000_0000
  const WINDOW_BITS: nat := 24
  const WINDOW: nat := 0x100_0000

  /** One draw: unsigned 32-bit multiply-add with wrap-around. */
  function Next(s: nat): (r: nat)
    ensures r < WORD
  {
    (s * MULTIPLIER + INCREMENT) % WORD
  }

  /** The state after `n` draws. */
  function StateAfter(s: nat, n: nat): nat {
    if n == 0 then s else Next(StateAfter(s, n - 1))
  }

  /** The 24 bits that a draw contributes to the uniform variate. */
  function Low(s: nat): (r: nat)
    ensures r < WINDOW
  {
    s % WINDOW
  }

  function Pow2(k: nat): (r: nat)
    ensures r > 0
  {
    if k == 0 then 1 else 2 * Pow2(k - 1)
  }

  /** The orbit of the affine map x -> MULTIPLIER * x + INCREMENT over the unbounded integers. */
  ghost function Orbit(x: int, n: nat): int {
    if n == 0 then x else Orbit(x, n - 1) * MULTIPLIER + INCREMENT
  }

  // ----- modular arithmetic

  lemma ModUnique(x: int, m: nat, q: int, r: int)
    requires 0 <= r < m && x == m * q + r
    ensures x % m == r
  {
    var q', r' := x / m, x % m;
    assert m * (q' - q) == r - r';
    if q' > q {
      MulLower(m, q' - q);
    } else if q' < q {
      MulLower(m, q - q');
    }
  }

  lemma ModShift(x: int, q: int, m: nat)
    requires m > 0
    ensures (x + m * q) % m == x % m
  {
    assert m * (x / m + q) == m * (x / m) + m * q;
    ModUnique(x + m * q, m, x / m + q, x % m);
  }

  lemma MulLower(m: nat, d: int)
    requires d >= 1
    ensures m * d >= m
  {
  }

  /** An affine step respects congruence modulo any `m`. */
  lemma StepCongruent(x: int, y: int, m: nat)
    requires m > 0 && x % m == y % m
    ensures (x * MULTIPLIER + INCREMENT) % m == (y * MULTIPLIER + INCREMENT) % m
  {
    var q := x / m - y / m;
    assert x == y + m * q;
    var a := MULTIPLIER;
    assert x * a + INCREMENT == y * a + INCREMENT + m * (q * a);
    ModShift(y * a + INCREMENT, q * a, m);
  }

  // ----- the 2^k-step jump

  ghost function JumpFactor(k: nat): int {
    if k == 0 then MULTIPLIER else JumpFactor(k - 1) * JumpFactor(k - 1)
  }

  ghost function JumpOffset(k: nat): int {
    if k == 0 then INCREMENT else JumpOffset(k - 1) * (JumpFactor(k - 1) + 1)
  }

  lemma {:induction false} OrbitCompose(x: int, m: nat, n: nat)
    ensures Orbit(x, m + n) == Orbit(Orbit(x, m), n)
  {
    if n == 0 {
    } else {
      OrbitCompose(x, m, n - 1);
    }
  }

  lemma {:induction false} JumpIsAffine(x: int, k: nat)
    ensures Orbit(x, Pow2(k)) == JumpFactor(k) * x + JumpOffset(k)
    decreases k
  {
    if k == 0 {
      assert Orbit(x, 1) == Orbit(x, 0) * MULTIPLIER + INCREMENT;
    } else {
      var half := Pow2(k - 1);
      OrbitCompose(x, half, half);
      JumpIsAffine(x, k - 1);
      JumpIsAffine(Orbit(x, half), k - 1);
      AffineTwice(JumpFactor(k - 1), JumpOffset(k - 1), x);
    }
  }

  lemma AffineTwice(f: int, o: int, x: int)
    ensures f * (f * x + o) + o == (f * f) * x + o * (f + 1)
  {
    assert f * (f * x) == (f * f) * x;
  }

  /** The multiplier is 1 modulo 4 and the increment is odd; squaring keeps both, one bit higher up. */
  lemma {:induction false} JumpShape(k: nat) returns (t: int, u: int)
    ensures JumpFactor(k) == 1 + 4 * Pow2(k) * t
    ensures JumpOffset(k) == Pow2(k) * (2 * u + 1)
  {
    if k == 0 {
      t, u := MULTIPLIER / 4, INCREMENT / 2;
    } else {
      var t', u' := JumpShape(k - 1);
      var p := Pow2(k - 1);
      t := t' + 2 * p * t' * t';
      u := u' * (2 * p * t' + 1) + p * t';
      var f := JumpFactor(k - 1);
      Square(p, t');
      OffsetStep(p, t', u');
    }
  }

  lemma Square(p: int, t: int)
    ensures (1 + 4 * p * t) * (1 + 4 * p * t) == 1 + 4 * (2 * p) * (t + 2 * p * t * t)
  {
    var z := p * t;
    assert 4 * p * t == 4 * z;
    assert p * (p * t * t) == z * z;
    assert (2 * p) * (t + 2 * p * t * t) == 2 * z + 4 * (p * (p * t * t));
  }

  lemma OffsetStep(p: int, t: int, u: int)
    ensures (p * (2 * u + 1)) * ((1 + 4 * p * t) + 1) == (2 * p) * (2 * (u * (2 * p * t + 1) + p * t) + 1)
  {
    var z := p * t;
    assert 4 * p * t == 4 * z && 2 * p * t == 2 * z;
    assert (2 * u + 1) * (2 * z + 1) == 2 * (u * (2 * z + 1) + z) + 1;
    assert (p * (2 * u + 1)) * (2 * (2 * z + 1)) == (2 * p) * ((2 * u + 1) * (2 * z + 1));
  }

  /** After 2^k draws the state has moved by exactly 2^k modulo 2^(k+1). */
  lemma JumpMovesOneBit(x: int, k: nat)
    ensures Orbit(x, Pow2(k)) % Pow2(k + 1) == (x + Pow2(k)) % Pow2(k + 1)
  {
    var t, u := JumpShape(k);
    JumpIsAffine(x, k);
    JumpSum(Pow2(k), t, u, x);
    ModShift(x + Pow2(k), 2 * (t * x) + u, 2 * Pow2(k));
  }

  lemma JumpSum(p: int, t: int, u: int, x: int)
    ensures (1 + 4 * p * t) * x + p * (2 * u + 1) == x + p + (2 * p) * (2 * (t * x) + u)
  {
    var z := p * t;
    var w := t * x;
    assert 4 * p * t == 4 * z;
    assert z * x == p * w;
    assert (1 + 4 * z) * x == x + 4 * (z * x);
    assert (2 * p) * (2 * w + u) == 4 * (p * w) + 2 * (p * u);
  }

  /** A draw that meets y modulo 2^(k-1) meets it modulo 2^k, or the one half a period later does. */
  lemma OneBitMore(x: int, k: nat, n: nat, y: nat)
    requires k > 0 && y < Pow2(k)
    requires var p := Pow2(k - 1); Orbit(x, n) % p == if y < p then y else y - p
    ensures Orbit(x, n) % Pow2(k) == y || Orbit(x, n + Pow2(k - 1)) % Pow2(k) == y
  {
    var p, o := Pow2(k - 1), Orbit(x, n);
    JumpMovesOneBit(o, k - 1);
    OneOfTwoHalves(o, Orbit(o, p), p, y);
    OrbitCompose(x, n, p);
  }

  /** Every residue modulo 2^k is met within 2^k draws, from any start. */
  lemma {:induction false} EveryResidueIsReached(x: int, k: nat, y: nat) returns (n: nat)
    requires y < Pow2(k)
    ensures n < Pow2(k) && Orbit(x, n) % Pow2(k) == y
  {
    if k == 0 {
      n := 0;
    } else {
      var p := Pow2(k - 1);
      n := EveryResidueIsReached(x, k - 1, if y < p then y else y - p);
      OneBitMore(x, k, n, y);
      if Orbit(x, n) % Pow2(k) != y {
        n := n + p;
      }
    }
  }

  lemma OneOfTwoHalves(o: int, o': int, p: nat, y: nat)
    requires p > 0 && y < 2 * p
    requires o % p == if y < p then y else y - p
    requires o' % (2 * p) == (o + p) % (2 * p)
    ensures o % (2 * p) == y || o' % (2 * p) == y
  {
    HalfResidue(o, p);
    HalfResidueShift(o, p);
  }

  lemma HalfResidue(o: int, p: nat)
    requires p > 0
    ensures o % (2 * p) == o % p || o % (2 * p) == o % p + p
  {
    var r, q := o % (2 * p), o / (2 * p);
    assert (2 * p) * q == p * (2 * q);
    if r < p {
      ModUnique(o, p, 2 * q, r);
    } else {
      assert p * (2 * q + 1) == p * (2 * q) + p;
      ModUnique(o, p, 2 * q + 1, r - p);
    }
  }

  lemma HalfResidueShift(o: int, p: nat)
    requires p > 0
    ensures (o + p) % (2 * p) == if o % (2 * p) < p then o % (2 * p) + p else o % (2 * p) - p
  {
    var r, q := o % (2 * p), o / (2 * p);
    if r < p {
      ModUnique(o + p, 2 * p, q, r + p);
    } else {
      assert (2 * p) * (q + 1) == (2 * p) * q + 2 * p;
      ModUnique(o + p, 2 * p, q + 1, r - p);
    }
  }

  // ----- counting over one period

  /** How many of the first `n` orbit points have a residue (modulo `m`) below `c`. */
  ghost function CountBelow(x: int, n: nat, m: nat, c: int): nat
    requires m > 0
  {
    if n == 0 then 0
    else CountBelow(x, n - 1, m, c) + if Orbit(x, n - 1) % m < c then 1 else 0
  }

  lemma {:induction false} CountBelowExtremes(x: int, n: nat, m: nat)
    requires m > 0
    ensures CountBelow(x, n, m, 0) == 0 && CountBelow(x, n, m, m) == n
  {
    if n == 0 {
    } else {
      CountBelowExtremes(x, n - 1, m);
    }
  }

  lemma {:induction false} CountBelowGrows(x: int, n: nat, m: nat, c: int)
    requires m > 0
    ensures CountBelow(x, n, m, c) <= CountBelow(x, n, m, c + 1)
    ensures (exists i: nat :: i < n && Orbit(x, i) % m == c) ==> CountBelow(x, n, m, c) < CountBelow(x, n, m, c + 1)
  {
    if n == 0 {
    } else {
      CountBelowGrows(x, n - 1, m, c);
      if i: nat :| i < n && Orbit(x, i) % m == c {
        assert i < n - 1 || i == n - 1;
      }
    }
  }

  /** Between two thresholds the count grows by at least their distance: every residue is hit. */
  lemma {:induction false} CountBelowSpreads(x: int, k: nat, lo: nat, hi: nat)
    requires lo <= hi <= Pow2(k)
    ensures CountBelow(x, Pow2(k), Pow2(k), lo) + (hi - lo) <= CountBelow(x, Pow2(k), Pow2(k), hi)
    decreases hi - lo
  {
    if lo < hi {
      CountBelowSpreads(x, k, lo, hi - 1);
      var n := EveryResidueIsReached(x, k, hi - 1);
      CountBelowGrows(x, Pow2(k), Pow2(k), hi - 1);
    }
  }

  /** Full period: in 2^k consecutive points exactly `c` residues lie below `c`. */
  lemma FullPeriodCount(x: int, k: nat, c: nat)
    requires c <= Pow2(k)
    ensures CountBelow(x, Pow2(k), Pow2(k), c) == c
  {
    CountBelowExtremes(x, Pow2(k), Pow2(k));
    CountBelowSpreads(x, k, 0, c);
    CountBelowSpreads(x, k, c, Pow2(k));
  }

  lemma {:induction false} TwiceCountsTwice(x: int, n: nat, m: nat, i: nat, j: nat)
    requires m > 0 && i < j < n && Orbit(x, i) % m == Orbit(x, j) % m
    ensures var c := Orbit(x, i) % m; CountBelow(x, n, m, c) + 2 <= CountBelow(x, n, m, c + 1)
    decreases n
  {
    if j < n - 1 {
      TwiceCountsTwice(x, n - 1, m, i, j);
    } else {
      CountBelowGrows(x, n - 1, m, Orbit(x, i) % m);
    }
  }

  /** Within one period no residue is met twice. */
  lemma NoResidueTwice(x: int, k: nat, i: nat, j: nat)
    requires i < j < Pow2(k)
    ensures Orbit(x, i) % Pow2(k) != Orbit(x, j) % Pow2(k)
  {
    var c := Orbit(x, i) % Pow2(k);
    if c == Orbit(x, j) % Pow2(k) {
      TwiceCountsTwice(x, Pow2(k), Pow2(k), i, j);
      FullPeriodCount(x, k, c);
      FullPeriodCount(x, k, c + 1);
    }
  }

  // ----- back to the 32-bit generator

  lemma {:induction false} StateFollowsOrbit(s: nat, n: nat)
    ensures Low(StateAfter(s, n)) == Orbit(s, n) % WINDOW
  {
    if n == 0 {
    } else {
      StateFollowsOrbit(s, n - 1);
      var st := StateAfter(s, n - 1);
      StepCongruent(st, Orbit(s, n - 1), WINDOW);
      var v := st * MULTIPLIER + INCREMENT;
      assert v == v % WORD + WINDOW * (256 * (v / WORD));
      ModShift(v % WORD, 256 * (v / WORD), WINDOW);
    }
  }

  lemma {:induction false} StateAfterCompose(s: nat, m: nat, n: nat)
    ensures StateAfter(s, m + n) == StateAfter(StateAfter(s, m), n)
  {
    if n == 0 {
    } else {
      StateAfterCompose(s, m, n - 1);
    }
  }

  lemma WindowIsPow2()
    ensures Pow2(WINDOW_BITS) == WINDOW
  {
    assert Pow2(8) == 256;
    assert Pow2(16) == 65536;
    assert Pow2(24) == 0x100_0000;
  }
}
