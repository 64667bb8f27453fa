/**
 * The 32-bit integer operators of section 6.1.6.1 of ECMA-262 on mathematical integers, and the
 * arithmetic they amount to.
 */
module Words32 {

  const WORD := 0x1_0000_0000

  function Pow2(n: nat): (p: nat)
    ensures p > 0
  {
    if n == 0 then 1 else 2 * Pow2(n - 1)
  }

  function ToUint32(x: int): (u: nat)
    ensures u < WORD && (0 <= x < WORD ==> u == x)
  {
    x % WORD
  }

  function ToInt32(x: int): (i: int)
    ensures -0x8000_0000 <= i < 0x8000_0000 && ToUint32(i) == ToUint32(x)
  {
    var u := x % WORD;
    if u >= 0x8000_0000 then u - WORD else u
  }

  /** x << n */
  function ShiftLeft(x: int, n: int): int { ToInt32(ToInt32(x) * Pow2(ToUint32(n) % 32)) }

  /** The low k bits of the conjunction. */
  function AndBits(x: nat, y: nat, k: nat): nat {
    if k == 0 then 0 else 2 * AndBits(x / 2, y / 2, k - 1) + if x % 2 == 1 && y % 2 == 1 then 1 else 0
  }

  function OrBits(x: nat, y: nat, k: nat): nat {
    if k == 0 then 0 else 2 * OrBits(x / 2, y / 2, k - 1) + if x % 2 == 1 || y % 2 == 1 then 1 else 0
  }

  /** How many bits a word has; a function so that the bit recursions above stay folded. */
  function WordBits(): (n: nat)
    ensures n == 32 && Pow2(n) == WORD
  {
    PowWord();
    32
  }

  /** x & y */
  function BitAnd(x: int, y: int): int { ToInt32(AndBits(ToUint32(x), ToUint32(y), WordBits())) }

  /** x | y */
  function BitOr(x: int, y: int): int { ToInt32(OrBits(ToUint32(x), ToUint32(y), WordBits())) }

  // ---------- Powers ----------

  lemma {:induction false} PowAdd(m: nat, n: nat)
    ensures Pow2(m + n) == Pow2(m) * Pow2(n)
  {
    if m > 0 {
      PowAdd(m - 1, n);
    }
  }

  lemma PowSmall()
    ensures Pow2(4) == 16 && Pow2(8) == 256
  {
    assert Pow2(2) == 4 && Pow2(6) == 64;
  }

  lemma PowWord()
    ensures Pow2(16) == 0x1_0000 && Pow2(24) == 0x100_0000 && Pow2(28) == 0x1000_0000 && Pow2(32) == WORD
  {
    PowSmall();
    PowAdd(8, 8);
    PowAdd(16, 8);
    PowAdd(24, 4);
    PowAdd(24, 8);
  }

  // ---------- Masking ----------

  lemma TimesKeepsOrder(a: int, b: int, d: nat)
    ensures a <= b ==> a * d <= b * d
  {
    if a <= b {
      assert b * d == a * d + (b - a) * d;
    }
  }

  lemma DivIs(x: int, d: int, q: int)
    requires d > 0 && q * d <= x < q * d + d
    ensures x / d == q
  {
    var r := x / d;
    assert r * d <= x < r * d + d;
    TimesKeepsOrder(r + 1, q, d);
    TimesKeepsOrder(q + 1, r, d);
    assert (r + 1) * d == r * d + d && (q + 1) * d == q * d + d;
  }

  lemma FloorIs(x: nat, d: nat)
    requires d > 0
    ensures (x / d) * d <= x < (x / d) * d + d
  {
  }

  /** All ones. */
  lemma {:induction false} AndOnes(x: nat, k: nat)
    requires x < Pow2(k)
    ensures AndBits(x, Pow2(k) - 1, k) == x
  {
    if k > 0 {
      AndOnes(x / 2, k - 1);
      assert (Pow2(k) - 1) / 2 == Pow2(k - 1) - 1 && (Pow2(k) - 1) % 2 == 1;
    }
  }

  lemma Double(q: nat, d: nat)
    ensures 2 * (q * d) == q * (2 * d)
  {
  }

  /** Clearing the low s of k bits leaves the multiple of 2^s below. */
  lemma {:induction false} AndMask(x: nat, q: nat, s: nat, k: nat)
    requires s <= k && x < Pow2(k) && q * Pow2(s) <= x < q * Pow2(s) + Pow2(s)
    ensures Pow2(s) <= Pow2(k) && AndBits(x, Pow2(k) - Pow2(s), k) == q * Pow2(s)
  {
    if s == 0 {
      AndOnes(x, k);
    } else {
      Double(q, Pow2(s - 1));
      AndMask(x / 2, q, s - 1, k - 1);
      var mask := Pow2(k) - Pow2(s);
      assert mask == 2 * (Pow2(k - 1) - Pow2(s - 1));
      assert AndBits(x, mask, k) == 2 * AndBits(x / 2, mask / 2, k - 1);
    }
  }

  lemma {:induction false} OrZero(x: nat, k: nat)
    requires x < Pow2(k)
    ensures OrBits(x, 0, k) == x
  {
    if k > 0 {
      OrZero(x / 2, k - 1);
    }
  }

  /** A disjunction of disjoint bits is a sum. */
  lemma {:induction false} OrDisjoint(q: nat, y: nat, s: nat, k: nat)
    requires s <= k && q * Pow2(s) < Pow2(k) && y < Pow2(s)
    ensures OrBits(q * Pow2(s), y, k) == q * Pow2(s) + y
  {
    if s == 0 {
      OrZero(q, k);
    } else {
      var half := q * Pow2(s - 1);
      Double(q, Pow2(s - 1));
      assert q * Pow2(s) == 2 * half;
      OrDisjoint(q, y / 2, s - 1, k - 1);
      assert OrBits(2 * half, y, k) == 2 * OrBits(half, y / 2, k - 1) + y % 2;
    }
  }

  /** ToInt32 forgets nothing of an unsigned word. */
  lemma ToInt32Injective(x: nat, y: nat)
    requires x < WORD && y < WORD
    ensures ToInt32(x) == ToInt32(y) <==> x == y
  {
    assert ToUint32(ToInt32(x)) == x && ToUint32(ToInt32(y)) == y;
  }
}
