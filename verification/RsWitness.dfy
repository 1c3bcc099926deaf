/** A concrete byte codec that meets the contract, so that the contract is not empty. */
module RsWitness {
  import opened Base
  import opened RsCodec
  import opened Bits

  // For every number of parity bytes: byte p of the parity is the XOR of the data bytes, byte i weighted by
  // 2^(i * p) in GF(2^8) modulo 0x11d. The argument is the one for Vandermonde matrices; it only uses a few
  // laws of the field, so it is made for any operations with these laws.

  // ----- the laws

  /** Addition, and multiplication with 2. */
  datatype Field<!T> = Field(zero: T, plus: (T, T) -> T, double: T -> T)

  /** 2^i times x. */
  function Scale<T>(f: Field<T>, i: nat, x: T): T {
    if i == 0 then x else f.double(Scale(f, i - 1, x))
  }

  predicate ZeroIsNeutral<T(==)>(f: Field<T>, x: T) {
    f.plus(x, f.zero) == x && f.plus(f.zero, x) == x
  }

  predicate EqualsCancel<T(==)>(f: Field<T>, x: T, y: T) {
    f.plus(x, y) == f.zero <==> x == y
  }

  predicate Commutes<T(==)>(f: Field<T>, x: T, y: T) {
    f.plus(x, y) == f.plus(y, x)
  }

  predicate Associates<T(==)>(f: Field<T>, x: T, y: T, z: T) {
    f.plus(f.plus(x, y), z) == f.plus(x, f.plus(y, z))
  }

  predicate DoubleIsLinear<T(==)>(f: Field<T>, x: T, y: T) {
    f.double(f.plus(x, y)) == f.plus(f.double(x), f.double(y))
  }

  predicate DoubleIsInjective<T(==)>(f: Field<T>, x: T, y: T) {
    f.double(x) == f.double(y) ==> x == y
  }

  /** Doubling fewer than K times moves every nonzero element. */
  predicate NoShortCycle<T(==)>(f: Field<T>, n: nat, x: T) {
    0 < n < K && Scale(f, n, x) == x ==> x == f.zero
  }

  ghost predicate Lawful<T(!new)>(f: Field<T>) {
    && (forall x :: ZeroIsNeutral(f, x))
    && (forall x, y :: EqualsCancel(f, x, y))
    && (forall x, y :: Commutes(f, x, y))
    && (forall x, y, z :: Associates(f, x, y, z))
    && (forall x, y :: DoubleIsLinear(f, x, y) && DoubleIsInjective(f, x, y))
    && (forall n: nat, x :: NoShortCycle(f, n, x))
  }

  lemma {:induction false} Distributes(f: Field<Byte>, i: nat, x: Byte, y: Byte)
    requires Lawful(f)
    ensures Scale(f, i, f.plus(x, y)) == f.plus(Scale(f, i, x), Scale(f, i, y))
  {
    if i == 0 {
    } else {
      Distributes(f, i - 1, x, y);
      assert DoubleIsLinear(f, Scale(f, i - 1, x), Scale(f, i - 1, y));
    }
  }

  lemma {:induction false} PowersAdd(f: Field<Byte>, a: nat, b: nat, x: Byte)
    ensures Scale(f, a, Scale(f, b, x)) == Scale(f, a + b, x)
  {
    if a == 0 {
    } else {
      PowersAdd(f, a - 1, b, x);
    }
  }

  /** The powers of 2 at different positions differ on every nonzero byte. */
  lemma {:induction false} Separates(f: Field<Byte>, a: nat, b: nat, x: Byte)
    requires Lawful(f) && a < b < K && Scale(f, a, x) == Scale(f, b, x)
    ensures x == f.zero
    decreases a
  {
    if a == 0 {
      assert NoShortCycle(f, b, x);
    } else {
      assert DoubleIsInjective(f, Scale(f, a - 1, x), Scale(f, b - 1, x));
      Separates(f, a - 1, b - 1, x);
    }
  }

  lemma ZeroStaysZero(f: Field<Byte>, i: nat)
    requires Lawful(f)
    ensures Scale(f, i, f.zero) == f.zero && f.plus(f.zero, f.zero) == f.zero
  {
    Distributes(f, i, f.zero, f.zero);
    assert ZeroIsNeutral(f, f.zero) && EqualsCancel(f, Scale(f, i, f.zero), Scale(f, i, f.zero));
  }

  lemma Rearranges(f: Field<Byte>, a: Byte, b: Byte, c: Byte, d: Byte)
    requires Lawful(f)
    ensures f.plus(f.plus(a, b), f.plus(c, d)) == f.plus(f.plus(a, c), f.plus(b, d))
  {
    assert Associates(f, a, b, f.plus(c, d)) && Associates(f, b, c, d) && Commutes(f, b, c);
    assert Associates(f, c, b, d) && Associates(f, a, c, f.plus(b, d));
  }

  // ----- weighted sums

  /** i times p. */
  function Exponent(i: nat, p: nat): nat {
    if p == 0 then 0 else Exponent(i, p - 1) + i
  }

  lemma NextExponent(i: nat, p: nat)
    ensures Exponent(i, 0) == 0 && Exponent(i, p + 1) == Exponent(i, p) + i
  {
  }

  function Term(f: Field<Byte>, i: nat, p: nat, x: Byte): Byte {
    Scale(f, Exponent(i, p), x)
  }

  /** The sum of all bytes, byte i multiplied by 2^(i * p). */
  function Sum(f: Field<Byte>, p: nat, d: seq<Byte>): Byte {
    if d == [] then f.zero else f.plus(Sum(f, p, d[..|d| - 1]), Term(f, |d| - 1, p, d[|d| - 1]))
  }

  lemma SumLast(f: Field<Byte>, p: nat, d: seq<Byte>, x: Byte)
    ensures Sum(f, p, d + [x]) == f.plus(Sum(f, p, d), Term(f, |d|, p, x))
  {
    assert (d + [x])[..|d|] == d;
  }

  function Difference(f: Field<Byte>, d: seq<Byte>, e: seq<Byte>): (z: seq<Byte>)
    requires |d| == |e|
    ensures |z| == |d|
  {
    seq(|d|, i requires 0 <= i < |d| => f.plus(d[i], e[i]))
  }

  lemma {:induction false} SumIsLinear(f: Field<Byte>, p: nat, d: seq<Byte>, e: seq<Byte>)
    requires |d| == |e| && Lawful(f)
    ensures Sum(f, p, Difference(f, d, e)) == f.plus(Sum(f, p, d), Sum(f, p, e))
  {
    if d == [] {
      ZeroStaysZero(f, 0);
    } else {
      var n := |d| - 1;
      var i := Exponent(n, p);
      SumIsLinear(f, p, d[..n], e[..n]);
      assert Difference(f, d, e)[..n] == Difference(f, d[..n], e[..n]);
      Distributes(f, i, d[n], e[n]);
      Rearranges(f, Sum(f, p, d[..n]), Sum(f, p, e[..n]), Scale(f, i, d[n]), Scale(f, i, e[n]));
    }
  }

  /** The plain sum of a vector that is zero except at position j. */
  lemma {:induction false} SumOfOne(f: Field<Byte>, z: seq<Byte>, j: nat)
    requires Lawful(f) && forall i :: 0 <= i < |z| && i != j ==> z[i] == f.zero
    ensures Sum(f, 0, z) == if j < |z| then z[j] else f.zero
  {
    if z == [] {
    } else {
      var n := |z| - 1;
      SumOfOne(f, z[..n], j);
      NextExponent(n, 0);
      assert ZeroIsNeutral(f, z[n]) && ZeroIsNeutral(f, Sum(f, 0, z[..n]));
    }
  }

  // ----- a sparse difference shows in the parity

  /** A byte at position i multiplied by 2^i + 2^j: at position j nothing is left. */
  function LeftOver(f: Field<Byte>, x: Byte, i: nat, j: nat): Byte {
    f.plus(Scale(f, i, x), Scale(f, j, x))
  }

  function Eliminate(f: Field<Byte>, z: seq<Byte>, j: nat): (z': seq<Byte>)
    ensures |z'| == |z|
  {
    seq(|z|, i requires 0 <= i < |z| => LeftOver(f, z[i], i, j))
  }

  lemma EliminatedTerm(f: Field<Byte>, e: nat, n: nat, j: nat, x: Byte)
    requires Lawful(f)
    ensures Scale(f, e, LeftOver(f, x, n, j)) == f.plus(Scale(f, e + n, x), Scale(f, j, Scale(f, e, x)))
  {
    Distributes(f, e, Scale(f, n, x), Scale(f, j, x));
    PowersAdd(f, e, n, x);
    PowersAdd(f, e, j, x);
    PowersAdd(f, j, e, x);
  }

  lemma EliminateLast(f: Field<Byte>, d: seq<Byte>, x: Byte, j: nat)
    ensures Eliminate(f, d + [x], j) == Eliminate(f, d, j) + [LeftOver(f, x, |d|, j)]
  {
  }

  /** One more term on both sides. */
  lemma EliminatedStep(f: Field<Byte>, a: Byte, b: Byte, n: nat, p: nat, j: nat, x: Byte)
    requires Lawful(f)
    ensures f.plus(f.plus(a, Scale(f, j, b)), Term(f, n, p, LeftOver(f, x, n, j))) ==
            f.plus(f.plus(a, Term(f, n, p + 1, x)), Scale(f, j, f.plus(b, Term(f, n, p, x))))
  {
    var e := Exponent(n, p);
    NextExponent(n, p);
    EliminatedTerm(f, e, n, j, x);
    Distributes(f, j, b, Scale(f, e, x));
    Rearranges(f, a, Scale(f, j, b), Scale(f, e + n, x), Scale(f, j, Scale(f, e, x)));
  }

  lemma EliminatedSumLast(f: Field<Byte>, d: seq<Byte>, x: Byte, j: nat, p: nat)
    ensures Sum(f, p, Eliminate(f, d + [x], j)) ==
            f.plus(Sum(f, p, Eliminate(f, d, j)), Term(f, |d|, p, LeftOver(f, x, |d|, j)))
  {
    EliminateLast(f, d, x, j);
    SumLast(f, p, Eliminate(f, d, j), LeftOver(f, x, |d|, j));
  }

  /** The parity of what is left over is a combination of two parities of the whole. */
  lemma {:induction false} EliminatedSum(f: Field<Byte>, z: seq<Byte>, j: nat, p: nat)
    requires Lawful(f)
    ensures Sum(f, p, Eliminate(f, z, j)) == f.plus(Sum(f, p + 1, z), Scale(f, j, Sum(f, p, z)))
  {
    if z == [] {
      ZeroStaysZero(f, j);
    } else {
      var n, x := |z| - 1, z[|z| - 1];
      var d := z[..n];
      assert z == d + [x];
      EliminatedSum(f, d, j, p);
      EliminatedSumLast(f, d, x, j, p);
      SumLast(f, p + 1, d, x);
      SumLast(f, p, d, x);
      EliminatedStep(f, Sum(f, p + 1, d), Sum(f, p, d), n, p, j, x);
    }
  }

  ghost predicate ZeroOutside(f: Field<Byte>, z: seq<Byte>, m: seq<nat>) {
    forall i :: 0 <= i < |z| && i !in m ==> z[i] == f.zero
  }

  lemma EliminatedIsSparser(f: Field<Byte>, z: seq<Byte>, m: seq<nat>, j: nat)
    requires Lawful(f) && ZeroOutside(f, z, m + [j])
    ensures ZeroOutside(f, Eliminate(f, z, j), m)
  {
    forall i | 0 <= i < |z| && i !in m
      ensures Eliminate(f, z, j)[i] == f.zero
    {
      if i == j {
        assert EqualsCancel(f, Scale(f, i, z[i]), Scale(f, j, z[i]));
      } else {
        assert z[i] == f.zero;
        ZeroStaysZero(f, i);
        ZeroStaysZero(f, j);
      }
    }
  }

  /** At another position something is left of every nonzero byte. */
  lemma NothingLeftOver(f: Field<Byte>, x: Byte, i: nat, j: nat)
    requires Lawful(f) && i < K && j < K && i != j && LeftOver(f, x, i, j) == f.zero
    ensures x == f.zero
  {
    assert EqualsCancel(f, Scale(f, i, x), Scale(f, j, x));
    Separates(f, if i < j then i else j, if i < j then j else i, x);
  }

  ghost predicate NoParity(f: Field<Byte>, z: seq<Byte>, r: nat) {
    forall p :: 0 <= p < r ==> Sum(f, p, z) == f.zero
  }

  lemma EliminatedHasNoParity(f: Field<Byte>, z: seq<Byte>, j: nat, r: nat)
    requires Lawful(f) && r > 0 && NoParity(f, z, r)
    ensures NoParity(f, Eliminate(f, z, j), r - 1)
  {
    forall p | 0 <= p < r - 1
      ensures Sum(f, p, Eliminate(f, z, j)) == f.zero
    {
      EliminatedSum(f, z, j, p);
      ZeroStaysZero(f, j);
    }
  }

  /** A difference that r parity bytes do not show, confined to at most r positions, is none. */
  lemma {:induction false} SparseDifferenceVanishes(f: Field<Byte>, r: nat, m: seq<nat>, z: seq<Byte>)
    requires Lawful(f) && |m| <= r && |z| == K && ZeroOutside(f, z, m) && NoParity(f, z, r)
    requires forall j :: 0 <= j < |m| ==> m[j] < K
    ensures forall i :: 0 <= i < K ==> z[i] == f.zero
    decreases |m|
  {
    if m == [] {
    } else {
      var rest, j := m[..|m| - 1], m[|m| - 1];
      assert m == rest + [j];
      EliminatedIsSparser(f, z, rest, j);
      EliminatedHasNoParity(f, z, j, r);
      SparseDifferenceVanishes(f, r - 1, rest, Eliminate(f, z, j));
      forall i | 0 <= i < K && i != j
        ensures z[i] == f.zero
      {
        assert Eliminate(f, z, j)[i] == f.zero;
        NothingLeftOver(f, z[i], i, j);
      }
      SumOfOne(f, z, j);
    }
  }

  // ----- the codec

  function Encode(f: Field<Byte>, r: nat, d: seq<Byte>): (p: seq<Byte>)
    ensures |p| == r && forall i :: 0 <= i < r ==> p[i] == Sum(f, i, d)
  {
    seq(r, i requires 0 <= i < r => Sum(f, i, d))
  }

  /** At most r erasures: the known bytes and the r parity bytes determine the column. */
  lemma ColumnIsDetermined(f: Field<Byte>, r: nat, present: seq<bool>, d: seq<Byte>, e: seq<Byte>)
    requires Lawful(f) && |present| == |d| == |e| == K && |Missing(present)| <= r
    requires forall i :: 0 <= i < K && present[i] ==> d[i] == e[i]
    requires Encode(f, r, d) == Encode(f, r, e)
    ensures d == e
  {
    var z, m := Difference(f, d, e), Missing(present);
    forall i | 0 <= i < K && i !in m
      ensures z[i] == f.zero
    {
      MissingIsAbsent(present, i);
      assert EqualsCancel(f, d[i], e[i]);
    }
    forall p | 0 <= p < r
      ensures Sum(f, p, z) == f.zero
    {
      SumIsLinear(f, p, d, e);
      assert Sum(f, p, d) == Encode(f, r, d)[p] == Encode(f, r, e)[p] == Sum(f, p, e);
      assert EqualsCancel(f, Sum(f, p, d), Sum(f, p, e));
    }
    SparseDifferenceVanishes(f, r, m, z);
    forall i | 0 <= i < K
      ensures d[i] == e[i]
    {
      assert z[i] == f.plus(d[i], e[i]) && EqualsCancel(f, d[i], e[i]);
    }
  }

  ghost predicate Explains(f: Field<Byte>, r: nat, w: seq<Byte>, missing: seq<nat>, d: seq<Byte>) {
    && |d| == K && |w| == K + r && w[K..] == Encode(f, r, d)
    && forall i :: 0 <= i < K && i !in missing ==> w[i] == d[i]
  }

  ghost function Decode(f: Field<Byte>, r: nat, w: seq<Byte>, missing: seq<nat>): (w': seq<Byte>)
    ensures |w'| == |w|
  {
    if exists d :: Explains(f, r, w, missing, d) then
      var d :| Explains(f, r, w, missing, d);
      d + Encode(f, r, d)
    else w
  }

  lemma ReceivedIsExplained(f: Field<Byte>, r: nat, present: seq<bool>, d: seq<Byte>)
    requires |d| == K && |present| == K
    ensures Explains(f, r, Received(present, d + Encode(f, r, d)), Missing(present), d)
  {
    var w := Received(present, d + Encode(f, r, d));
    forall i | 0 <= i < K && i !in Missing(present)
      ensures w[i] == d[i]
    {
      MissingIsAbsent(present, i);
    }
    assert w[K..] == Encode(f, r, d);
  }

  lemma OnlyOneExplanation(f: Field<Byte>, r: nat, present: seq<bool>, d: seq<Byte>, e: seq<Byte>)
    requires Lawful(f) && |d| == K && |present| == K && |Missing(present)| <= r
    requires Explains(f, r, Received(present, d + Encode(f, r, d)), Missing(present), e)
    ensures e == d
  {
    var w := Received(present, d + Encode(f, r, d));
    assert w[K..] == Encode(f, r, d);
    forall i | 0 <= i < K && present[i]
      ensures d[i] == e[i]
    {
      MissingIsAbsent(present, i);
      assert w[i] == d[i];
    }
    ColumnIsDetermined(f, r, present, d, e);
  }

  lemma WitnessRestores(f: Field<Byte>, r: nat, present: seq<bool>, d: seq<Byte>)
    requires Lawful(f) && |d| == K && |present| == K && |Missing(present)| <= r
    ensures Decode(f, r, Received(present, d + Encode(f, r, d)), Missing(present)) == d + Encode(f, r, d)
  {
    var w, m := Received(present, d + Encode(f, r, d)), Missing(present);
    ReceivedIsExplained(f, r, present, d);
    var e :| Explains(f, r, w, m, e) && Decode(f, r, w, m) == e + Encode(f, r, e);
    OnlyOneExplanation(f, r, present, d, e);
  }

  lemma LawfulGivesModel(f: Field<Byte>, r: nat) returns (c: Codec)
    requires Lawful(f)
    ensures Correct(c, r) && forall d :: c.encode(d) == Encode(f, r, d)
  {
    c := Codec((d: seq<Byte>) => Encode(f, r, d), (w: seq<Byte>, e: seq<nat>) => Decode(f, r, w, e));
    forall d, present | |d| == K && |present| == K && |Missing(present)| <= r
      ensures Restores(c, r, present, d)
    {
      WitnessRestores(f, r, present, d);
    }
  }

  // ----- GF(2^8)

  /** Twice w: the bit shifted out comes back as 0x1d. */
  function Double(w: bv8): bv8 {
    (w << 1) ^ (w >> 7) ^ ((w >> 7) << 2) ^ ((w >> 7) << 3) ^ ((w >> 7) << 4)
  }

  function Gf256(): Field<bv8> {
    Field(0, (v: bv8, w: bv8) => v ^ w, (w: bv8) => Double(w))
  }

  lemma XorCancels(v: bv8, w: bv8)
    ensures ZeroIsNeutral(Gf256(), v) && EqualsCancel(Gf256(), v, w)
  {
  }

  lemma XorAssociates(u: bv8, v: bv8, w: bv8)
    ensures Commutes(Gf256(), u, v) && Associates(Gf256(), u, v, w)
  {
  }

  lemma DoubleOfXor(v: bv8, w: bv8)
    ensures DoubleIsLinear(Gf256(), v, w)
  {
  }

  lemma DoubleOnce(v: bv8, w: bv8)
    ensures DoubleIsInjective(Gf256(), v, w)
  {
  }

  lemma {:induction false} GfHasNoShortCycle(n: nat, w: bv8)
    requires 0 < n < K
    ensures NoShortCycle(Gf256(), n, w)
  {
    var f := Gf256();
    var w1 := Double(w);
    var w2 := Double(w1);
    var w3 := Double(w2);
    var w4 := Double(w3);
    var w5 := Double(w4);
    var w6 := Double(w5);
    assert Scale(f, 1, w) == w1;
    assert Scale(f, 2, w) == w2;
    assert Scale(f, 3, w) == w3;
    assert Scale(f, 4, w) == w4;
    assert Scale(f, 5, w) == w5;
    assert Scale(f, 6, w) == w6;
    assert Scale(f, 7, w) == Double(w6);
  }

  lemma Gf256IsLawful()
    ensures Lawful(Gf256())
  {
    forall x, y
      ensures ZeroIsNeutral(Gf256(), x) && EqualsCancel(Gf256(), x, y)
    {
      XorCancels(x, y);
    }
    forall x, y, z
      ensures Commutes(Gf256(), x, y) && Associates(Gf256(), x, y, z)
    {
      XorAssociates(x, y, z);
    }
    forall x, y
      ensures DoubleIsLinear(Gf256(), x, y) && DoubleIsInjective(Gf256(), x, y)
    {
      DoubleOfXor(x, y);
      DoubleOnce(x, y);
    }
    forall n: nat, x
      ensures NoShortCycle(Gf256(), n, x)
    {
      if 0 < n < K {
        GfHasNoShortCycle(n, x);
      }
    }
  }

  // ----- the same field on bytes

  /** Bytes and elements, one for one. */
  datatype Coding<!T> = Coding(of: Byte -> T, byte: T -> Byte)

  ghost predicate OneToOne<T(!new)>(c: Coding<T>) {
    (forall x :: c.byte(c.of(x)) == x) && forall t :: c.of(c.byte(t)) == t
  }

  function OnBytes<T>(f: Field<T>, c: Coding<T>): Field<Byte> {
    Field(c.byte(f.zero), (x: Byte, y: Byte) => c.byte(f.plus(c.of(x), c.of(y))),
          (x: Byte) => c.byte(f.double(c.of(x))))
  }

  lemma {:induction false} ScaleOnBytes<T(!new)>(f: Field<T>, c: Coding<T>, n: nat, x: Byte)
    requires OneToOne(c)
    ensures c.of(Scale(OnBytes(f, c), n, x)) == Scale(f, n, c.of(x))
  {
    if n == 0 {
    } else {
      ScaleOnBytes(f, c, n - 1, x);
    }
  }

  lemma SumsOnBytes<T(!new)>(f: Field<T>, c: Coding<T>, x: Byte, y: Byte, z: Byte)
    requires OneToOne(c) && Lawful(f)
    ensures ZeroIsNeutral(OnBytes(f, c), x) && EqualsCancel(OnBytes(f, c), x, y)
    ensures Commutes(OnBytes(f, c), x, y) && Associates(OnBytes(f, c), x, y, z)
  {
    assert ZeroIsNeutral(f, c.of(x)) && EqualsCancel(f, c.of(x), c.of(y));
    assert Commutes(f, c.of(x), c.of(y)) && Associates(f, c.of(x), c.of(y), c.of(z));
    assert c.byte(c.of(x)) == x && c.byte(c.of(y)) == y;
  }

  lemma DoublesOnBytes<T(!new)>(f: Field<T>, c: Coding<T>, x: Byte, y: Byte)
    requires OneToOne(c) && Lawful(f)
    ensures DoubleIsLinear(OnBytes(f, c), x, y) && DoubleIsInjective(OnBytes(f, c), x, y)
  {
    assert DoubleIsLinear(f, c.of(x), c.of(y)) && DoubleIsInjective(f, c.of(x), c.of(y));
    assert c.byte(c.of(x)) == x && c.byte(c.of(y)) == y;
    var g := OnBytes(f, c);
    assert c.of(g.double(x)) == f.double(c.of(x)) && c.of(g.double(y)) == f.double(c.of(y));
  }

  lemma CyclesOnBytes<T(!new)>(f: Field<T>, c: Coding<T>, n: nat, x: Byte)
    requires OneToOne(c) && Lawful(f)
    ensures NoShortCycle(OnBytes(f, c), n, x)
  {
    ScaleOnBytes(f, c, n, x);
    assert NoShortCycle(f, n, c.of(x)) && c.byte(c.of(x)) == x;
  }

  lemma OnBytesIsLawful<T(!new)>(f: Field<T>, c: Coding<T>, g: Field<Byte>)
    requires OneToOne(c) && Lawful(f) && g == OnBytes(f, c)
    ensures Lawful(g)
  {
    forall x
      ensures ZeroIsNeutral(g, x)
    {
      SumsOnBytes(f, c, x, x, x);
    }
    forall x, y
      ensures EqualsCancel(g, x, y) && Commutes(g, x, y)
    {
      SumsOnBytes(f, c, x, y, y);
    }
    forall x, y, z
      ensures Associates(g, x, y, z)
    {
      SumsOnBytes(f, c, x, y, z);
    }
    forall x, y
      ensures DoubleIsLinear(g, x, y) && DoubleIsInjective(g, x, y)
    {
      DoublesOnBytes(f, c, x, y);
    }
    forall n: nat, x
      ensures NoShortCycle(g, n, x)
    {
      CyclesOnBytes(f, c, n, x);
    }
  }

  function Binary(): Coding<bv8> {
    Coding(Word, FromWord)
  }

  lemma BinaryIsOneToOne()
    ensures OneToOne(Binary())
  {
    forall x
      ensures FromWord(Word(x)) == x
    {
      FromWordOf(x);
    }
  }

  /** For every number of parity bytes the contract has a model over real bytes. */
  lemma ContractHasModel(r: nat) returns (c: Codec)
    ensures Correct(c, r) && forall d :: c.encode(d) == Encode(OnBytes(Gf256(), Binary()), r, d)
  {
    var g := OnBytes(Gf256(), Binary());
    BinaryIsOneToOne();
    Gf256IsLawful();
    OnBytesIsLawful(Gf256(), Binary(), g);
    c := LawfulGivesModel(g, r);
  }
}
