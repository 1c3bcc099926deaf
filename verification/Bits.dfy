/** Bytes as numbers and as bit vectors, one for one: the witness of the codec contract adds and doubles bytes as bit
    vectors, and everything else only sees numbers below 256. */
module Bits {
  import opened Base

  /** The k lowest binary digits of n, the highest first. */
  function Digits(n: nat, k: nat): (d: seq<bool>)
    ensures |d| == k
  {
    if k == 0 then [] else Digits(n / 2, k - 1) + [n % 2 == 1]
  }

  function Number(d: seq<bool>): nat {
    if d == [] then 0 else 2 * Number(d[..|d| - 1]) + if d[|d| - 1] then 1 else 0
  }

  function Power(k: nat): (n: nat)
    ensures n > 0
  {
    if k == 0 then 1 else 2 * Power(k - 1)
  }

  lemma {:induction false} NumberOfDigits(n: nat, k: nat)
    requires n < Power(k)
    ensures Number(Digits(n, k)) == n
  {
    if k == 0 {
    } else {
      NumberOfDigits(n / 2, k - 1);
      assert Digits(n, k)[..k - 1] == Digits(n / 2, k - 1);
      assert n == 2 * (n / 2) + n % 2;
    }
  }

  lemma {:induction false} DigitsOfNumber(d: seq<bool>)
    ensures Number(d) < Power(|d|) && Digits(Number(d), |d|) == d
  {
    if d == [] {
    } else {
      DigitsOfNumber(d[..|d| - 1]);
    }
  }

  function Mask(on: bool, m: bv8): bv8 {
    if on then m else 0
  }

  function Masks(d0: bool, d1: bool, d2: bool, d3: bool, d4: bool, d5: bool, d6: bool, d7: bool): (b: bv8)
    ensures (b & 128 != 0) == d0 && (b & 64 != 0) == d1 && (b & 32 != 0) == d2 && (b & 16 != 0) == d3
    ensures (b & 8 != 0) == d4 && (b & 4 != 0) == d5 && (b & 2 != 0) == d6 && (b & 1 != 0) == d7
  {
    Mask(d0, 128) | Mask(d1, 64) | Mask(d2, 32) | Mask(d3, 16) | Mask(d4, 8) | Mask(d5, 4) | Mask(d6, 2) | Mask(d7, 1)
  }

  /** The word with these binary digits. */
  function Pack(d: seq<bool>): (b: bv8)
    requires |d| == 8
    ensures Unpack(b) == d
  {
    Masks(d[0], d[1], d[2], d[3], d[4], d[5], d[6], d[7])
  }

  function Unpack(b: bv8): (d: seq<bool>)
    ensures |d| == 8
  {
    [b & 128 != 0, b & 64 != 0, b & 32 != 0, b & 16 != 0, b & 8 != 0, b & 4 != 0, b & 2 != 0, b & 1 != 0]
  }

  lemma PackUnpacked(b: bv8)
    ensures Pack(Unpack(b)) == b
  {
  }

  lemma ByteRange()
    ensures Power(8) == 256
  {
  }

  function Word(x: Byte): bv8 {
    Pack(Digits(Value(x), 8))
  }

  function FromWord(w: bv8): (x: Byte)
    ensures Word(x) == w
  {
    ByteRange();
    DigitsOfNumber(Unpack(w));
    PackUnpacked(w);
    ByteOf(Number(Unpack(w)))
  }

  lemma FromWordOf(x: Byte)
    ensures FromWord(Word(x)) == x
  {
    ByteRange();
    NumberOfDigits(Value(x), 8);
  }
}
