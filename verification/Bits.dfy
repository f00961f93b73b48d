/** Natural numbers as bit strings: conjunction, shifts, and the number of set bits. */
module Bits {

  const WORD: nat := 0x1_0000_0000

  /** Bitwise conjunction. */
  function And(a: nat, b: nat): nat {
    if a == 0 || b == 0 then 0 else (a % 2) * (b % 2) + 2 * And(a / 2, b / 2)
  }

  function Shl(a: nat, k: nat): (r: nat)
    ensures r >= a
  {
    if k == 0 then a else 2 * Shl(a, k - 1)
  }

  function PopCount(n: nat): nat {
    if n == 0 then 0 else n % 2 + PopCount(n / 2)
  }

  lemma AndStep(a: nat, b: nat)
    ensures And(a, b) == (a % 2) * (b % 2) + 2 * And(a / 2, b / 2)
  {
  }

  lemma PopStep(n: nat)
    ensures PopCount(n) == n % 2 + PopCount(n / 2)
  {
  }

  /** Bits below position `k` and bits from `k` up are conjoined separately. */
  lemma {:induction false} AndSplit(a: nat, b: nat, a': nat, b': nat, k: nat)
    requires b < Shl(1, k) && b' < Shl(1, k)
    ensures And(b + Shl(a, k), b' + Shl(a', k)) == And(b, b') + Shl(And(a, a'), k)
  {
    if k == 0 {
      assert b == 0 && b' == 0;
    } else {
      var x, y := b + Shl(a, k), b' + Shl(a', k);
      assert x % 2 == b % 2 && x / 2 == b / 2 + Shl(a, k - 1);
      assert y % 2 == b' % 2 && y / 2 == b' / 2 + Shl(a', k - 1);
      AndSplit(a, b / 2, a', b' / 2, k - 1);
      AndStep(x, y);
      AndStep(b, b');
      var p, q, r := And(b / 2, b' / 2), Shl(And(a, a'), k - 1), (b % 2) * (b' % 2);
      assert And(x, y) == r + 2 * (p + q);
      assert And(b, b') == r + 2 * p;
    }
  }

  lemma {:induction false} PopSplit(a: nat, b: nat, k: nat)
    requires b < Shl(1, k)
    ensures PopCount(b + Shl(a, k)) == PopCount(b) + PopCount(a)
  {
    if k == 0 {
      assert b == 0;
    } else {
      var x := b + Shl(a, k);
      assert x % 2 == b % 2 && x / 2 == b / 2 + Shl(a, k - 1);
      PopSplit(a, b / 2, k - 1);
      PopStep(x);
      PopStep(b);
    }
  }

  function Shr(a: nat, k: nat): nat {
    if k == 0 then a else Shr(a / 2, k - 1)
  }

  /** The low `k` bits. */
  function Low(a: nat, k: nat): nat {
    if k == 0 then 0 else a % 2 + 2 * Low(a / 2, k - 1)
  }

  /** A number is its high bits, shifted back, and its low bits. */
  lemma {:induction false} HighLow(a: nat, k: nat)
    ensures a == Low(a, k) + Shl(Shr(a, k), k) && Low(a, k) < Shl(1, k)
  {
    if k > 0 {
      HighLow(a / 2, k - 1);
    }
  }

  /** Masking with `k` ones keeps the low `k` bits. */
  lemma {:induction false} AndOnes(a: nat, k: nat)
    ensures And(a, Shl(1, k) - 1) == Low(a, k)
  {
    if k > 0 {
      hide And;
      var h := Shl(1, k - 1);
      AndOnes(a / 2, k - 1);
      AndStep(a, 2 * h - 1);
      assert (2 * h - 1) / 2 == h - 1 && (2 * h - 1) % 2 == 1;
    } else {
      AndZero(a);
    }
  }

  /** The low `k` bits are the remainder modulo the `k`-th power of two. */
  lemma LowIsRemainder(a: nat, k: nat)
    ensures Low(a, k) == a % Shl(1, k) && Shr(a, k) == a / Shl(1, k)
  {
    hide Low, Shr, Shl;
    HighLow(a, k);
    ShlTimes(Shr(a, k), k);
    DivModUnique(a, Shl(1, k), Shr(a, k), Low(a, k));
  }

  lemma {:induction false} LowOfSmall(a: nat, k: nat)
    requires a < Shl(1, k)
    ensures Low(a, k) == a && Shr(a, k) == 0
  {
    if k > 0 {
      LowOfSmall(a / 2, k - 1);
    }
  }

  lemma {:induction false} ShrBound(a: nat, j: nat, k: nat)
    requires a < Shl(1, j + k)
    ensures Shr(a, k) < Shl(1, j)
  {
    if k > 0 {
      ShrBound(a / 2, j, k - 1);
    }
  }

  lemma {:induction false} ShlMonotone(a: nat, b: nat, k: nat)
    requires a <= b
    ensures Shl(a, k) <= Shl(b, k)
    ensures Shl(b, k) == Shl(a, k) + Shl(b - a, k)
  {
    if k > 0 {
      ShlMonotone(a, b, k - 1);
    }
  }

  lemma MulLess(x: nat, y: nat, d: nat)
    requires x < y
    ensures x * d + d <= y * d
  {
    assert y * d == x * d + (y - x) * d;
    assert (y - x) * d == (y - x - 1) * d + d;
  }

  lemma DivModUnique(a: nat, d: nat, q: nat, r: nat)
    requires d > 0 && r < d && a == q * d + r
    ensures a / d == q && a % d == r
  {
    var q', r' := a / d, a % d;
    assert a == q' * d + r' by { assert a == d * q' + r'; }
    if q' > q {
      MulLess(q, q', d);
    } else if q' < q {
      MulLess(q', q, d);
    }
  }

  lemma {:induction false} PopOnes(k: nat)
    ensures PopCount(Shl(1, k) - 1) == k
  {
    if k > 0 {
      PopOnes(k - 1);
      PopStep(2 * Shl(1, k - 1) - 1);
    }
  }

  lemma {:induction false} ShlAdd(a: nat, j: nat, k: nat)
    ensures Shl(Shl(a, j), k) == Shl(a, j + k)
  {
    if k > 0 {
      ShlAdd(a, j, k - 1);
    }
  }

  /** A shift multiplies. */
  lemma {:induction false} ShlTimes(a: nat, k: nat)
    ensures Shl(a, k) == a * Shl(1, k)
  {
    if k > 0 {
      ShlTimes(a, k - 1);
      assert 2 * (a * Shl(1, k - 1)) == a * (2 * Shl(1, k - 1));
    }
  }

  lemma {:induction false} AndZero(a: nat)
    ensures And(a, 0) == 0 && And(0, a) == 0
  {
  }

  lemma {:induction false} AndBound(a: nat, b: nat)
    ensures And(a, b) <= a && And(a, b) <= b
  {
    if a != 0 && b != 0 {
      AndBound(a / 2, b / 2);
      assert (a % 2) * (b % 2) <= a % 2 && (a % 2) * (b % 2) <= b % 2 by {
        if a % 2 == 0 { } else { assert a % 2 == 1; }
      }
    }
  }
}
