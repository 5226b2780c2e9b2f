// Bitwise operations on natural numbers, bit by bit, and what masks and shifts amount to.
module BitArithmetic {

  function BitAnd(a: nat, b: nat): nat {
    if a == 0 || b == 0 then 0 else (a % 2) * (b % 2) + 2 * BitAnd(a / 2, b / 2)
  }

  function BitOr(a: nat, b: nat): nat
    decreases a + b
  {
    if a == 0 then b else if b == 0 then a
    else (if a % 2 == 1 || b % 2 == 1 then 1 else 0) + 2 * BitOr(a / 2, b / 2)
  }

  function Pow2(k: nat): (p: nat)
    ensures p > 0
  {
    if k == 0 then 1 else 2 * Pow2(k - 1)
  }

  function ShiftLeft(a: nat, k: nat): nat { a * Pow2(k) }

  lemma Powers()
    ensures Pow2(4) == 16 && Pow2(7) == 128 && Pow2(8) == 256
    ensures Pow2(16) == 0x1_0000 && Pow2(24) == 0x100_0000 && Pow2(31) == 0x8000_0000
  {
    assert Pow2(4) == 16;
    assert Pow2(8) == 256;
    assert Pow2(12) == 0x1000;
    assert Pow2(16) == 0x1_0000;
    assert Pow2(20) == 0x10_0000;
    assert Pow2(24) == 0x100_0000;
    assert Pow2(28) == 0x1000_0000;
  }

  // The lowest k bits.
  function Low(a: nat, k: nat): nat { if k == 0 then 0 else a % 2 + 2 * Low(a / 2, k - 1) }

  // Masking with k ones keeps the lowest k bits.
  lemma {:induction false} BitAndMask(a: nat, k: nat)
    ensures BitAnd(a, Pow2(k) - 1) == Low(a, k)
    decreases k
  {
    if a == 0 {
      LowZero(k);
    } else if k > 0 {
      BitAndMask(a / 2, k - 1);
      var p := Pow2(k - 1);
      assert (2 * p - 1) / 2 == p - 1 && (2 * p - 1) % 2 == 1;
    }
  }

  lemma {:induction false} LowZero(k: nat)
    ensures Low(0, k) == 0
  {
    if k > 0 { LowZero(k - 1); }
  }

  // They are what remains of a number without its higher bits.
  lemma {:induction false} LowSplits(a: nat, k: nat) returns (q: nat)
    ensures a == ShiftLeft(q, k) + Low(a, k) && Low(a, k) < Pow2(k)
    decreases k
  {
    if k == 0 {
      q := a;
    } else {
      q := LowSplits(a / 2, k - 1);
      Doubled(q, k);
    }
  }

  lemma Masked(a: nat, k: nat, m: nat) returns (q: nat)
    requires Pow2(k) == m
    ensures a == q * m + BitAnd(a, m - 1) && BitAnd(a, m - 1) < m
  {
    hide BitAnd, Low, Pow2;
    BitAndMask(a, k);
    q := LowSplits(a, k);
  }

  // The masks of the codes: 4, 7 and 31 bits.
  lemma MaskFour(a: nat)
    ensures BitAnd(a, 0x0F) == a % 16
  {
    hide *;
    Powers();
    var q := Masked(a, 4, 16);
  }

  lemma MaskSeven(a: nat)
    ensures BitAnd(a, 0x7F) == a % 128
  {
    hide *;
    Powers();
    var q := Masked(a, 7, 128);
  }

  lemma MaskThirtyOne(a: nat)
    ensures BitAnd(a, 0x7FFF_FFFF) == a % 0x8000_0000
  {
    hide *;
    Powers();
    var q := Masked(a, 31, 0x8000_0000);
  }

  // Bits above a number and that number do not meet: or is a sum.
  lemma {:induction false} BitOrApart(a: nat, b: nat, k: nat)
    requires b < Pow2(k)
    ensures BitOr(ShiftLeft(a, k), b) == ShiftLeft(a, k) + b
    decreases k
  {
    if k > 0 && a > 0 && b > 0 {
      BitOrApart(a, b / 2, k - 1);
      Doubled(a, k);
      var h := ShiftLeft(a, k - 1);
      assert (2 * h) / 2 == h && (2 * h) % 2 == 0;
    }
  }

  lemma Doubled(a: nat, k: nat)
    requires k > 0
    ensures ShiftLeft(a, k) == 2 * ShiftLeft(a, k - 1)
    ensures a > 0 ==> ShiftLeft(a, k) > 0
  {
    assert a * (2 * Pow2(k - 1)) == 2 * (a * Pow2(k - 1));
  }
}
