/** Bytes, little-endian integers and the bit operations the sources use. */
module Bytes {

  type byte = b: nat | b < 256

  const TWO_TO_THE_64: nat := 0x1_0000_0000_0000_0000

  type u64 = n: nat | n < TWO_TO_THE_64

  function Pow2(k: nat): (p: nat)
    ensures p >= 1
  {
    if k == 0 then 1 else 2 * Pow2(k - 1)
  }

  lemma {:induction false} Pow2Adds(j: nat, k: nat)
    ensures Pow2(j + k) == Pow2(j) * Pow2(k)
  {
    if j == 0 {
    } else {
      Pow2Adds(j - 1, k);
      assert j + k - 1 == (j - 1) + k;
      assert 2 * (Pow2(j - 1) * Pow2(k)) == (2 * Pow2(j - 1)) * Pow2(k);
    }
  }

  /** The number 256 to the power `width`: how many values `width` bytes can hold. */
  function Range(width: nat): (r: nat)
    ensures r >= 1
  {
    if width == 0 then 1 else 256 * Range(width - 1)
  }

  /** `from_le_bytes`. */
  function FromLe(bs: seq<byte>): (n: nat)
    ensures n < Range(|bs|)
  {
    if |bs| == 0 then 0 else bs[0] + 256 * FromLe(bs[1..])
  }

  /** `to_le_bytes`, keeping the low `width` bytes. */
  function ToLe(n: nat, width: nat): (bs: seq<byte>)
    ensures |bs| == width
  {
    if width == 0 then [] else [n % 256] + ToLe(n / 256, width - 1)
  }

  lemma {:induction false} ToLeFromLe(bs: seq<byte>)
    ensures ToLe(FromLe(bs), |bs|) == bs
  {
    if |bs| == 0 {
    } else {
      ToLeFromLe(bs[1..]);
      assert FromLe(bs) % 256 == bs[0] && FromLe(bs) / 256 == FromLe(bs[1..]);
      assert bs == [bs[0]] + bs[1..];
    }
  }

  lemma {:induction false} FromLeToLe(n: nat, width: nat)
    ensures FromLe(ToLe(n, width)) == n % Range(width)
  {
    if width == 0 {
    } else {
      FromLeToLe(n / 256, width - 1);
      var bs := ToLe(n, width);
      assert bs[0] == n % 256 && bs[1..] == ToLe(n / 256, width - 1);
      SplitModulus(n, Range(width - 1));
    }
  }

  /** Byte i is the digit of weight 256 to the power i: the lowest byte comes first. */
  lemma {:induction false} ToLeAt(n: nat, width: nat, i: nat)
    requires i < width
    ensures ToLe(n, width)[i] == n / Range(i) % 256
  {
    if i == 0 {
    } else {
      ToLeAt(n / 256, width - 1, i - 1);
      DivideTwice(n, Range(i - 1));
    }
  }

  lemma DivideTwice(n: nat, r: nat)
    requires r >= 1
    ensures n / 256 / r == n / (256 * r)
  {
    SplitModulus(n, r);
    var q := n / 256 / r;
    assert n / 256 == r * q + n / 256 % r;
    assert n == 256 * (n / 256) + n % 256;
    assert n == (256 * r) * q + n % (256 * r) by { assert 256 * (r * q) == (256 * r) * q; }
    RemainderIsUnique(n, 256 * r, q, n % (256 * r));
  }

  lemma SplitModulus(n: nat, r: nat)
    requires r >= 1
    ensures n % (256 * r) == n % 256 + 256 * ((n / 256) % r)
  {
    var q := (n / 256) / r;
    var low := n % 256 + 256 * ((n / 256) % r);
    assert n / 256 == r * q + (n / 256) % r;
    assert n == 256 * r * q + low by {
      assert 256 * (r * q + (n / 256) % r) == 256 * (r * q) + 256 * ((n / 256) % r);
    }
    assert 0 <= low < 256 * r by { assert (n / 256) % r <= r - 1; }
    RemainderIsUnique(n, 256 * r, q, low);
  }

  lemma RemainderIsUnique(n: int, d: int, q: int, r: int)
    requires 0 < d && 0 <= r < d && n == d * q + r
    ensures n % d == r && n / d == q
  {
    var q', r' := n / d, n % d;
    assert d * q' + r' == d * q + r;
    assert d * (q' - q) == r - r';
    MultiplesAreApart(d, q' - q);
  }

  lemma MultiplesAreApart(d: int, k: int)
    requires 0 < d
    ensures k >= 1 ==> d * k >= d
    ensures k <= -1 ==> d * k <= -d
  {
  }

  lemma {:induction false} ToLeSmall(n: nat, used: nat, width: nat)
    requires used <= width && n < Range(used)
    ensures ToLe(n, width) == ToLe(n, used) + Zeros(width - used)
  {
    if used == 0 {
      ToLeZero(width);
    } else {
      ToLeSmall(n / 256, used - 1, width - 1);
    }
  }

  function Zeros(k: nat): (bs: seq<byte>)
    ensures |bs| == k
  {
    if k == 0 then [] else [0] + Zeros(k - 1)
  }

  lemma {:induction false} ToLeZero(width: nat)
    ensures ToLe(0, width) == Zeros(width)
  {
    if width == 0 {
    } else {
      ToLeZero(width - 1);
    }
  }

  /** The smallest multiple of `unit` that is at least `n`. */
  function RoundUp(n: nat, unit: nat): (m: nat)
    requires unit > 0
    ensures m % unit == 0 && n <= m < n + unit
  {
    if n % unit == 0 then n else
    var m := n + (unit - n % unit);
    RemainderIsUnique(m, unit, n / unit + 1, 0);
    m
  }

  // ---- shifts and bits ----

  /** n >> k. */
  function Shift(n: nat, k: nat): nat {
    if k == 0 then n else Shift(n / 2, k - 1)
  }

  /** The low k bits of n. */
  function Low(n: nat, k: nat): nat {
    if k == 0 then 0 else n % 2 + 2 * Low(n / 2, k - 1)
  }

  /** n << k. */
  function Scaled(n: nat, k: nat): nat {
    if k == 0 then n else 2 * Scaled(n, k - 1)
  }

  /** The test `n & (1 << i) == 1 << i`. */
  predicate HasBit(n: nat, i: nat) {
    Shift(n, i) % 2 == 1
  }

  lemma {:induction false} ShiftAndLow(n: nat, k: nat)
    ensures n == Low(n, k) + Scaled(Shift(n, k), k)
    ensures Low(n, k) < Pow2(k)
  {
    if k == 0 {
    } else {
      ShiftAndLow(n / 2, k - 1);
    }
  }

  lemma {:induction false} ShiftAndLowAreUnique(full: nat, rest: nat, k: nat)
    requires rest < Pow2(k)
    ensures Shift(rest + Scaled(full, k), k) == full && Low(rest + Scaled(full, k), k) == rest
  {
    if k == 0 {
    } else {
      ShiftAndLowAreUnique(full, rest / 2, k - 1);
      assert (rest + Scaled(full, k)) / 2 == rest / 2 + Scaled(full, k - 1);
    }
  }

  lemma {:induction false} ScaledAdds(a: nat, b: nat, k: nat)
    ensures Scaled(a + b, k) == Scaled(a, k) + Scaled(b, k)
    ensures Scaled(1, k) == Pow2(k)
  {
    if k == 0 {
    } else {
      ScaledAdds(a, b, k - 1);
    }
  }

  lemma {:induction false} ScaledIsProduct(n: nat, k: nat)
    ensures Scaled(n, k) == Pow2(k) * n
  {
    if k == 0 {
    } else {
      ScaledIsProduct(n, k - 1);
      assert 2 * (Pow2(k - 1) * n) == (2 * Pow2(k - 1)) * n;
    }
  }

  lemma ShiftIsDivision(n: nat, k: nat)
    ensures Shift(n, k) == n / Pow2(k)
  {
    ShiftAndLow(n, k);
    ScaledIsProduct(Shift(n, k), k);
    RemainderIsUnique(n, Pow2(k), Shift(n, k), Low(n, k));
  }

  /** x | y. */
  function BitOr(x: nat, y: nat): nat {
    if x == 0 then y
    else if y == 0 then x
    else (if x % 2 == 1 || y % 2 == 1 then 1 else 0) + 2 * BitOr(x / 2, y / 2)
  }

  /** Or-ing in a value that fits below the shift is addition. */
  lemma {:induction false} BitOrDisjoint(a: nat, y: nat, k: nat)
    requires y < Pow2(k)
    ensures BitOr(Scaled(a, k), y) == Scaled(a, k) + y
  {
    if k == 0 {
    } else {
      assert Scaled(a, k) % 2 == 0 && Scaled(a, k) / 2 == Scaled(a, k - 1);
      BitOrDisjoint(a, y / 2, k - 1);
    }
  }

  lemma {:induction false} BitOrScaled(a: nat, b: nat, k: nat)
    ensures BitOr(Scaled(a, k), Scaled(b, k)) == Scaled(BitOr(a, b), k)
  {
    if k == 0 {
    } else {
      BitOrScaled(a, b, k - 1);
    }
  }
}
