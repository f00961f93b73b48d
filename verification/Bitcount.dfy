/** `bitcount` of util.c: the set bits of a 32-bit word, three bits at a time. */
module Bitcount {
  import opened Bits

  /** Unsigned 32-bit subtraction and addition. */
  function Sub32(a: nat, b: nat): nat {
    (a - b) % WORD
  }

  function Add32(a: nat, b: nat): nat {
    (a + b) % WORD
  }

  const OCTAL_THREES: nat := 0xDB6D_B6DB  // 033333333333
  const OCTAL_ONES: nat := 0x4924_9249    // 011111111111
  const OCTAL_SEVENS: nat := 0xC71C_71C7  // 030707070707

  function Count(n: nat): nat {
    var count := Sub32(Sub32(n, And(n / 2, OCTAL_THREES)), And(n / 4, OCTAL_ONES));
    And(Add32(count, count / 8), OCTAL_SEVENS) % 63
  }

  /** The number whose `k` octal digits are all one. */
  function Ones(k: nat): nat {
    if k == 0 then 0 else 1 + 8 * Ones(k - 1)
  }

  function Pow8(k: nat): nat {
    if k == 0 then 1 else 8 * Pow8(k - 1)
  }

  /** Each of the `k` octal digits of `n` replaced by its number of set bits. */
  function DigitCounts(n: nat, k: nat): nat {
    if k == 0 then 0 else PopCount(n % 8) + 8 * DigitCounts(n / 8, k - 1)
  }

  lemma Digit(d: nat)
    requires d < 8
    ensures PopCount(d) == d - d / 2 - d / 4 && PopCount(d) <= 3
  {
  }

  lemma DigitSmall(d: nat)
    requires d < 8
    ensures PopCount(d) <= 3
  {
    Digit(d);
  }

  lemma PopOctal(n: nat)
    ensures PopCount(n) == PopCount(n % 8) + PopCount(n / 8)
  {
    assert Shl(1, 3) == 8 && Shl(n / 8, 3) == 8 * (n / 8) by {
      assert Shl(1, 0) == 1 && Shl(1, 1) == 2 && Shl(1, 2) == 4;
      assert Shl(n / 8, 0) == n / 8 && Shl(n / 8, 1) == 2 * (n / 8) && Shl(n / 8, 2) == 4 * (n / 8);
    }
    PopSplit(n / 8, n % 8, 3);
  }

  lemma AndOctal(x: nat, y: nat)
    ensures And(x, y) == And(x % 8, y % 8) + 8 * And(x / 8, y / 8)
  {
    assert Shl(1, 3) == 8 && Shl(x / 8, 3) == 8 * (x / 8) && Shl(y / 8, 3) == 8 * (y / 8) by {
      assert Shl(1, 0) == 1 && Shl(1, 1) == 2 && Shl(1, 2) == 4;
      assert Shl(x / 8, 0) == x / 8 && Shl(x / 8, 1) == 2 * (x / 8) && Shl(x / 8, 2) == 4 * (x / 8);
      assert Shl(y / 8, 0) == y / 8 && Shl(y / 8, 1) == 2 * (y / 8) && Shl(y / 8, 2) == 4 * (y / 8);
    }
    AndSplit(x / 8, x % 8, y / 8, y % 8, 3);
    var z := And(x / 8, y / 8);
    assert Shl(z, 3) == 8 * z by {
      assert Shl(z, 0) == z && Shl(z, 1) == 2 * z && Shl(z, 2) == 4 * z;
    }
  }

  lemma AndThree(d: nat)
    ensures And(d, 3) == d % 4 && And(d, 1) == d % 2 && And(d, 7) == d % 8
  {
    hide And;
    assert Shl(1, 0) == 1 && Shl(1, 1) == 2 && Shl(1, 2) == 4 && Shl(1, 3) == 8;
    AndOnes(d, 1);
    AndOnes(d, 2);
    AndOnes(d, 3);
    LowIsRemainder(d, 1);
    LowIsRemainder(d, 2);
    LowIsRemainder(d, 3);
  }

  lemma HalfDigit(n: nat)
    ensures n / 2 / 8 == n / 8 / 2 && n / 2 % 8 % 4 == n % 8 / 2
  {
  }

  lemma QuarterDigit(n: nat)
    ensures n / 4 / 8 == n / 8 / 4 && n / 4 % 8 % 2 == n % 8 / 4
  {
  }

  lemma MaskDigit(d: nat, h: nat)
    requires d < 8
    ensures (d + 8 * h) % 8 == d && (d + 8 * h) / 8 == h
  {
  }

  /** One digit of each masked shift. */
  lemma HalfMask(n: nat, h: nat)
    ensures And(n / 2, 3 + 8 * h) == n % 8 / 2 + 8 * And(n / 8 / 2, h)
  {
    hide And;
    AndOctal(n / 2, 3 + 8 * h);
    MaskDigit(3, h);
    AndThree(n / 2 % 8);
    HalfDigit(n);
  }

  lemma QuarterMask(n: nat, h: nat)
    ensures And(n / 4, 1 + 8 * h) == n % 8 / 4 + 8 * And(n / 8 / 4, h)
  {
    hide And;
    AndOctal(n / 4, 1 + 8 * h);
    MaskDigit(1, h);
    AndThree(n / 4 % 8);
    QuarterDigit(n);
  }

  /**
    First two terms: subtracting the two masked shifts counts the bits of every octal
    digit, for any number of digits, and no digit borrows from the next.
   */
  lemma {:induction false} CountsPerDigit(n: nat, k: nat)
    requires n < Pow8(k)
    ensures And(n / 2, 3 * Ones(k)) + And(n / 4, Ones(k)) <= n
    ensures n - And(n / 2, 3 * Ones(k)) - And(n / 4, Ones(k)) == DigitCounts(n, k)
  {
    if k == 0 {
      AndZero(n / 2);
      AndZero(n / 4);
    } else {
      hide And, PopCount, DigitCounts, Pow8, Ones;
      var d, m := n % 8, n / 8;
      Unfold(n, k);
      CountsPerDigit(m, k - 1);
      HalfMask(n, 3 * Ones(k - 1));
      QuarterMask(n, Ones(k - 1));
      Digit(d);
      DigitStep(d, m, d / 2, d / 4, And(m / 2, 3 * Ones(k - 1)), And(m / 4, Ones(k - 1)));
    }
  }

  lemma Unfold(n: nat, k: nat)
    requires k > 0
    ensures DigitCounts(n, k) == PopCount(n % 8) + 8 * DigitCounts(n / 8, k - 1)
    ensures n < Pow8(k) ==> n / 8 < Pow8(k - 1)
    ensures Ones(k) == 1 + 8 * Ones(k - 1) && 3 * Ones(k) == 3 + 8 * (3 * Ones(k - 1))
  {
    hide PopCount;
  }

  /** Subtracting digit by digit, without a borrow. */
  lemma DigitStep(d: nat, m: nat, half: nat, quarter: nat, a: nat, b: nat)
    requires half + quarter <= d && a + b <= m
    ensures (half + 8 * a) + (quarter + 8 * b) <= d + 8 * m
    ensures d + 8 * m - (half + 8 * a) - (quarter + 8 * b) == (d - half - quarter) + 8 * (m - a - b)
  {
  }

  lemma {:induction false} CountsOfZero(k: nat)
    ensures DigitCounts(0, k) == 0
  {
    if k > 0 {
      Unfold(0, k);
      CountsOfZero(k - 1);
      PopZero();
    }
  }

  lemma {:induction false} DigitCountsBound(n: nat, k: nat)
    ensures DigitCounts(n, k) <= 3 * Ones(k)
  {
    if k > 0 {
      Digit(n % 8);
      DigitCountsBound(n / 8, k - 1);
    }
  }

  // ---------- Digit sums ----------

  /** The number with the given base-64 digits, lowest first. */
  function Value64(ds: seq<nat>): nat {
    if ds == [] then 0 else ds[0] + 64 * Value64(ds[1..])
  }

  function Sum(ds: seq<nat>): nat {
    if ds == [] then 0 else ds[0] + Sum(ds[1..])
  }

  function Excess(ds: seq<nat>): nat {
    if ds == [] then 0 else Value64(ds[1..]) + Excess(ds[1..])
  }

  /** Casting out sixty-threes, for digit sequences of any length. */
  lemma {:induction false} CastingOut(ds: seq<nat>)
    ensures Value64(ds) == Sum(ds) + 63 * Excess(ds)
  {
    if ds != [] {
      CastingOut(ds[1..]);
    }
  }

  /** The set bits among the lowest two octal digits. */
  function PairCount(n: nat): nat {
    PopCount(n % 8) + PopCount(n / 8 % 8)
  }

  /** Bits counted over pairs of octal digits, lowest pair first. */
  function PairCounts(n: nat, k: nat): seq<nat> {
    if k == 0 then [] else [PairCount(n)] + PairCounts(n / 64, k - 1)
  }

  lemma {:induction false} PairCountsSum(n: nat, k: nat)
    requires n < Pow8(2 * k)
    ensures Sum(PairCounts(n, k)) == PopCount(n)
  {
    if k > 0 {
      assert Pow8(2 * k) == 8 * Pow8(2 * k - 1) == 64 * Pow8(2 * (k - 1));
      PairCountsSum(n / 64, k - 1);
      PopOctal(n);
      PopOctal(n / 8);
      assert n / 8 / 8 == n / 64;
      assert PairCounts(n, k)[1..] == PairCounts(n / 64, k - 1);
    }
  }

  /** `0...0707` in octal with `k` pairs of digits and 3 for the topmost digit. */
  function Sevens(k: nat): nat {
    if k <= 1 then 3 else 7 + 64 * Sevens(k - 1)
  }

  function Limit(k: nat): nat {
    if k <= 1 then 4 else 64 * Limit(k - 1)
  }

  lemma AndSixtyFour(x: nat, m: nat)
    ensures And(x, 7 + 64 * m) == x % 8 + 64 * And(x / 64, m)
  {
    hide And;
    AndOctal(x, 7 + 8 * (8 * m));
    MaskDigit(7, 8 * m);
    AndThree(x % 8);
    AndOctal(x / 8, 0 + 8 * m);
    MaskDigit(0, m);
    AndZero(x / 8 % 8);
    assert x / 8 / 8 == x / 64;
  }

  /** `count + (count >> 3)`. */
  function Folded(count: nat): nat {
    count + count / 8
  }

  /** Adding a copy shifted by one digit makes pair sums, and nothing is carried between pairs. */
  lemma NoCarry(e0: nat, e1: nat, upper: nat)
    requires e0 <= 3 && e1 <= 3 && upper % 8 <= 3
    ensures var count := e0 + 8 * (e1 + 8 * upper);
      Folded(count) % 8 == e0 + e1 && Folded(count) / 64 == Folded(upper)
  {
    var e2, rest := upper % 8, upper / 8;
    var x := (e0 + e1) + 8 * ((e1 + e2) + 8 * (upper + rest));
    assert Folded(e0 + 8 * (e1 + 8 * upper)) == x by { MaskDigit(e0, e1 + 8 * upper); }
    MaskDigit(e0 + e1, (e1 + e2) + 8 * (upper + rest));
    MaskDigit(e1 + e2, upper + rest);
    assert x / 64 == x / 8 / 8;
  }

  lemma LowDigit(n: nat, k: nat)
    requires k >= 1
    ensures DigitCounts(n, k) % 8 <= 3
  {
    hide PopCount;
    Digit(n % 8);
    MaskDigit(PopCount(n % 8), DigitCounts(n / 8, k - 1));
  }

  lemma TwoDigits(n: nat, k: nat)
    requires k >= 1
    ensures DigitCounts(n, 2 * k) == PopCount(n % 8) + 8 * (PopCount(n / 8 % 8) + 8 * DigitCounts(n / 64, 2 * (k - 1)))
  {
    assert DigitCounts(n, 2 * k) == PopCount(n % 8) + 8 * DigitCounts(n / 8, 2 * k - 1);
    assert n / 8 / 8 == n / 64;
  }

  /** The lowest pair of the masked sum, and what remains of it. */
  lemma LowestPair(n: nat, k: nat)
    requires k >= 2
    ensures var count, upper := DigitCounts(n, 2 * k), DigitCounts(n / 64, 2 * (k - 1));
      And(Folded(count), Sevens(k))
        == PopCount(n % 8) + PopCount(n / 8 % 8) + 64 * And(Folded(upper), Sevens(k - 1))
  {
    hide And, PopCount, DigitCounts, Sevens, Folded;
    var e0, e1 := PopCount(n % 8), PopCount(n / 8 % 8);
    var count, upper := DigitCounts(n, 2 * k), DigitCounts(n / 64, 2 * (k - 1));
    assert And(Folded(count), Sevens(k)) == e0 + e1 + 64 * And(Folded(upper), Sevens(k - 1)) by {
      DigitSmall(n % 8);
      DigitSmall(n / 8 % 8);
      LowDigit(n / 64, 2 * (k - 1));
      TwoDigits(n, k);
      PairStep(count, e0, e1, upper, k);
    }
  }

  lemma PairStep(count: nat, e0: nat, e1: nat, upper: nat, k: nat)
    requires k >= 2 && e0 <= 3 && e1 <= 3 && upper % 8 <= 3
    requires count == e0 + 8 * (e1 + 8 * upper)
    ensures And(Folded(count), Sevens(k)) == e0 + e1 + 64 * And(Folded(upper), Sevens(k - 1))
  {
    hide And, Folded;
    NoCarry(e0, e1, upper);
    AndSixtyFour(Folded(count), Sevens(k - 1));
  }

  /** A single digit, with nothing above it. */
  lemma TopDigit(n: nat)
    requires n < 4
    ensures DigitCounts(n, 2) == PopCount(n) <= 3
  {
    hide PopCount, DigitCounts, Pow8, Ones;
    assert n % 8 == n && n / 8 == 0;
    DigitSmall(n);
    Unfold(n, 2);
    CountsOfZero(1);
  }

  lemma TopPairCount(n: nat)
    requires n < 4
    ensures PairCounts(n, 1) == [PopCount(n)]
  {
    hide PopCount, PairCount;
    assert PairCount(n) == PopCount(n) by { SmallPair(n); }
  }

  lemma SmallPair(n: nat)
    requires n < 4
    ensures PairCount(n) == PopCount(n)
  {
    hide PopCount;
    PopZero();
    assert n % 8 == n && n / 8 == 0;
  }

  lemma TopPair(n: nat)
    requires n < 4
    ensures And(Folded(DigitCounts(n, 2)), Sevens(1)) == Value64(PairCounts(n, 1))
  {
    hide And, PopCount, DigitCounts, PairCounts;
    TopDigit(n);
    TopPairCount(n);
    AndThree(PopCount(n));
    assert Value64([PopCount(n)][1..]) == 0;
  }

  lemma PopZero()
    ensures PopCount(0) == 0
  {
  }

  /** Last term: the mask picks the pair sums out, for any number of pairs. */
  lemma {:induction false} PairsPicked(n: nat, k: nat)
    requires k >= 1 && n < Limit(k)
    ensures var count := DigitCounts(n, 2 * k); And(Folded(count), Sevens(k)) == Value64(PairCounts(n, k))
  {
    hide And, DigitCounts, PopCount;
    if k == 1 {
      TopPair(n);
    } else {
      LowestPair(n, k);
      PairsPicked(n / 64, k - 1);
      assert PairCounts(n, k)[1..] == PairCounts(n / 64, k - 1);
    }
  }

  lemma {:induction false} PopBound(n: nat, k: nat)
    requires n < Shl(1, k)
    ensures PopCount(n) <= k
  {
    if k > 0 {
      PopBound(n / 2, k - 1);
    }
  }

  lemma Constants()
    ensures OCTAL_THREES == 3 * Ones(11) && OCTAL_ONES == Ones(11) && OCTAL_SEVENS == Sevens(6)
    ensures Limit(6) == WORD && Pow8(11) == 2 * WORD && Pow8(12) == 16 * WORD && Shl(1, 32) == WORD
  {
    assert Ones(3) == 73 && Ones(6) == 37449 && Ones(9) == 19173961;
    assert Sevens(2) == 199 && Sevens(4) == 7 + 64 * (7 + 64 * 199);
    assert Limit(3) == 16384;
    assert Pow8(4) == 4096 && Pow8(8) == 16777216;
    assert Shl(1, 8) == 256 && Shl(1, 16) == 65536 && Shl(1, 24) == 16777216 by {
      assert Shl(1, 4) == 16 && Shl(1, 12) == 4096 && Shl(1, 20) == 1048576;
    }
    assert Shl(1, 28) == 268435456;
  }

  lemma {:induction false} CountsStable(n: nat, k: nat)
    requires n < Pow8(k)
    ensures DigitCounts(n, k + 1) == DigitCounts(n, k)
  {
    if k == 0 {
      assert DigitCounts(0, 0) == 0;
    } else {
      CountsStable(n / 8, k - 1);
    }
  }

  lemma InRange(a: nat, b: nat)
    requires b <= a < WORD
    ensures Sub32(a, b) == a - b
  {
  }

  lemma FoldedInRange(count: nat)
    requires count <= OCTAL_THREES
    ensures Add32(count, count / 8) == Folded(count)
  {
  }

  /** None of the 32-bit operations wraps around. */
  lemma NoWrap(n: nat)
    requires n < WORD
    ensures var count := Sub32(Sub32(n, And(n / 2, OCTAL_THREES)), And(n / 4, OCTAL_ONES));
      count == DigitCounts(n, 11) && Add32(count, count / 8) == Folded(count)
  {
    hide And, DigitCounts, Ones, Sub32, Add32, Sevens, Limit;
    Constants();
    CountsPerDigit(n, 11);
    DigitCountsBound(n, 11);
    var a, b, count := And(n / 2, OCTAL_THREES), And(n / 4, OCTAL_ONES), DigitCounts(n, 11);
    InRange(n, a);
    InRange(n - a, b);
    FoldedInRange(count);
  }

  /** `bitcount` counts the set bits of every 32-bit word. */
  lemma CountIsPopCount(n: nat)
    requires n < WORD
    ensures Count(n) == PopCount(n)
  {
    hide And, Folded, DigitCounts, PairCounts, PopCount, Excess, Sub32, Add32, Pow8, Limit, Value64, Sum, Sevens;
    Constants();
    NoWrap(n);
    CountsStable(n, 11);
    PairsPicked(n, 6);
    PairCountsSum(n, 6);
    CastingOut(PairCounts(n, 6));
    PopBound(n, 32);
    Reduce(PopCount(n), Excess(PairCounts(n, 6)));
  }

  lemma Reduce(s: nat, q: nat)
    requires s < 63
    ensures (s + 63 * q) % 63 == s
  {
  }
}
