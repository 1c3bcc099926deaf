/** The Reed-Solomon codec: a foreign library seen through a contract. */
module RsCodec {
  import opened Base

  // `encode` maps K data bytes to the parity bytes of one column; `decode` gets a column with the list of data
  // positions that are missing, and returns the corrected column. The list itself is not changed by the library.
  // The library's tables are not part of this model.

  datatype Codec = Codec(encode: seq<Byte> -> seq<Byte>, decode: (seq<Byte>, seq<nat>) -> seq<Byte>)

  /** The positions without a byte, in ascending order, as the column loop collects them. */
  function Missing(present: seq<bool>): (m: seq<nat>)
    ensures |m| == |present| - Count(present)
    ensures forall j :: 0 <= j < |m| ==> m[j] < |present|
  {
    if present == [] then []
    else
      var n := |present| - 1;
      var m := Missing(present[..n]);
      if present[n] then m else m + [n]
  }

  lemma {:induction false} MissingIsAbsent(present: seq<bool>, i: nat)
    requires i < |present|
    ensures i in Missing(present) <==> !present[i]
    decreases |present|
  {
    var n := |present| - 1;
    if i < n {
      MissingIsAbsent(present[..n], i);
    } else {
      assert forall m :: m in Missing(present[..n]) ==> m < n;
    }
  }

  /** A codeword as it is handed to the decoder: zero where a data byte is missing. */
  function Received(present: seq<bool>, codeword: seq<Byte>): (w: seq<Byte>)
    requires |present| <= |codeword|
    ensures |w| == |codeword|
  {
    seq(|codeword|, i requires 0 <= i < |codeword| => if i < |present| && !present[i] then 0 else codeword[i])
  }

  /** Encoding yields r parity bytes, decoding keeps the length. */
  ghost predicate Shaped(c: Codec, r: nat) {
    && (forall d :: |d| == K ==> |c.encode(d)| == r)
    && (forall w, e :: |w| == K + r ==> |c.decode(w, e)| == K + r)
  }

  /** Decoding gives back the missing data bytes of a column from what was received of it. */
  ghost predicate Restores(c: Codec, r: nat, present: seq<bool>, d: seq<Byte>)
    requires Shaped(c, r) && |present| == K == |d|
  {
    var decoded := c.decode(Received(present, d + c.encode(d)), Missing(present));
    forall i :: 0 <= i < K && !present[i] ==> decoded[i] == d[i]
  }

  /** The library's promise: up to r missing bytes of a column are restored. */
  ghost predicate Correct(c: Codec, r: nat) {
    && Shaped(c, r)
    && forall d, present :: |d| == K && |present| == K && |Missing(present)| <= r ==> Restores(c, r, present, d)
  }

  // ----- no codec restores more

  ghost function AllBytes(): set<Byte> {
    set i | 0 <= i < 256 :: ByteOf(i)
  }

  lemma AllBytesIsAll(b: Byte)
    ensures b in AllBytes()
  {
    assert ByteOf(Value(b)) == b;
  }

  /** The set of all byte strings of length n. */
  ghost function Strings(n: nat): (s: set<seq<Byte>>)
  {
    if n == 0 then {[]} else set b, t | b in AllBytes() && t in Strings(n - 1) :: [b] + t
  }

  lemma {:induction false} StringsIsAll(x: seq<Byte>, n: nat)
    ensures x in Strings(n) <==> |x| == n
  {
    if n == 0 {
    } else if |x| == n {
      StringsIsAll(x[1..], n - 1);
      AllBytesIsAll(x[0]);
      assert x == [x[0]] + x[1..];
    } else if x in Strings(n) {
      var b, t :| b in AllBytes() && t in Strings(n - 1) && x == [b] + t;
      StringsIsAll(t, n - 1);
    }
  }

  /** An injective function into a set shows its domain is no larger. */
  lemma {:induction false} InjectionShrinks<A(!new), B(!new)>(a: set<A>, b: set<B>, f: A -> B)
    requires forall x :: x in a ==> f(x) in b
    requires forall x, y :: x in a && y in a && f(x) == f(y) ==> x == y
    ensures |a| <= |b|
  {
    if x :| x in a {
      InjectionShrinks(a - {x}, b - {f(x)}, f);
    }
  }

  lemma {:induction false} LongerStringsAreMore(m: nat, n: nat)
    requires m < n
    ensures |Strings(m)| < |Strings(n)|
  {
    var extra := Repeat<Byte>(1, n);
    var f := (x: seq<Byte>) => Repeat<Byte>(0, if |x| < n then n - |x| else 0) + x;
    StringsIsAll(extra, n);
    forall x | x in Strings(m)
      ensures f(x) in Strings(n) - {extra}
    {
      StringsIsAll(x, m);
      StringsIsAll(f(x), n);
      assert f(x)[0] == 0 && extra[0] == 1;
    }
    forall x, y | x in Strings(m) && y in Strings(m) && f(x) == f(y)
      ensures x == y
    {
      StringsIsAll(x, m);
      StringsIsAll(y, m);
      assert f(x)[n - m..] == x && f(y)[n - m..] == y;
    }
    InjectionShrinks(Strings(m), Strings(n) - {extra}, f);
  }

  lemma {:induction false} RankOfMissing(present: seq<bool>, i: nat)
    requires i < |present| && !present[i]
    ensures |Missing(present[..i])| < |Missing(present)|
    ensures Missing(present)[|Missing(present[..i])|] == i
  {
    var n := |present| - 1;
    if i < n {
      RankOfMissing(present[..n], i);
      assert present[..n][..i] == present[..i];
    }
  }

  lemma {:induction false} MissingIsRanked(present: seq<bool>, j: nat)
    requires j < |Missing(present)|
    ensures var i := Missing(present)[j]; !present[i] && |Missing(present[..i])| == j
  {
    var n := |present| - 1;
    if present[n] || j < |Missing(present)| - 1 {
      MissingIsRanked(present[..n], j);
      var i := Missing(present)[j];
      assert present[..n][..i] == present[..i];
    }
  }

  lemma {:induction false} MissingAscends(present: seq<bool>)
    ensures forall i, j :: 0 <= i < j < |Missing(present)| ==> Missing(present)[i] < Missing(present)[j]
  {
    if present == [] {
    } else {
      MissingAscends(present[..|present| - 1]);
    }
  }

  /** The column whose missing positions carry the bytes of `x` and whose other positions are zero. */
  ghost function Spread(present: seq<bool>, x: seq<Byte>): (d: seq<Byte>)
    requires |x| == |Missing(present)|
    ensures |d| == |present|
    ensures forall i :: 0 <= i < |present| && present[i] ==> d[i] == 0
  {
    seq(|present|, i requires 0 <= i < |present| =>
      if present[i] then 0 else (RankOfMissing(present, i); x[|Missing(present[..i])|]))
  }

  lemma SpreadIsInjective(present: seq<bool>, x: seq<Byte>, y: seq<Byte>)
    requires |x| == |y| == |Missing(present)|
    requires Spread(present, x) == Spread(present, y)
    ensures x == y
  {
    forall j | 0 <= j < |x|
      ensures x[j] == y[j]
    {
      var i := Missing(present)[j];
      MissingIsRanked(present, j);
      assert Spread(present, x)[i] == Spread(present, y)[i];
    }
  }

  /** Two columns that differ only where bytes are missing look the same to the decoder if their parity agrees. */
  lemma ParityTellsApart(c: Codec, r: nat, present: seq<bool>, x: seq<Byte>, y: seq<Byte>)
    requires Shaped(c, r) && |present| == K && |x| == |y| == |Missing(present)|
    requires Restores(c, r, present, Spread(present, x)) && Restores(c, r, present, Spread(present, y))
    requires c.encode(Spread(present, x)) == c.encode(Spread(present, y))
    ensures x == y
  {
    var dx, dy := Spread(present, x), Spread(present, y);
    assert Received(present, dx + c.encode(dx)) == Received(present, dy + c.encode(dy));
    assert dx == dy;
    SpreadIsInjective(present, x, y);
  }

  /** With more than r bytes missing, whatever the codec does, some column is restored wrongly: the r parity bytes
      cannot tell all columns apart. */
  lemma NoCodecRestoresMore(c: Codec, r: nat, present: seq<bool>)
    requires Shaped(c, r) && |present| == K && |Missing(present)| > r
    ensures exists d :: |d| == K && !Restores(c, r, present, d)
  {
    var m := |Missing(present)|;
    if forall d :: |d| == K ==> Restores(c, r, present, d) {
      var f := (x: seq<Byte>) => if |x| == m then c.encode(Spread(present, x)) else [];
      forall x | x in Strings(m)
        ensures |x| == m && f(x) in Strings(r)
      {
        StringsIsAll(x, m);
        assert |Spread(present, x)| == K;
        StringsIsAll(f(x), r);
      }
      forall x, y | x in Strings(m) && y in Strings(m) && f(x) == f(y)
        ensures x == y
      {
        ParityTellsApart(c, r, present, x, y);
      }
      InjectionShrinks(Strings(m), Strings(r), f);
      LongerStringsAreMore(r, m);
      assert false;
    }
  }

  /** Every column survives a loss pattern exactly when at most r of its bytes are missing. */
  lemma RestorableIffWithinParity(c: Codec, r: nat, present: seq<bool>)
    requires Correct(c, r) && |present| == K
    ensures (forall d :: |d| == K ==> Restores(c, r, present, d)) <==> |Missing(present)| <= r
  {
    if |Missing(present)| > r {
      NoCodecRestoresMore(c, r, present);
    }
  }
}
