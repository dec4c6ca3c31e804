/** Shifts and low bits of numbers, defined one bit at a time, and their meaning as powers of two. */
module Bits {
  import opened Arith

  function Pow2(n: nat): (p: nat)
    ensures p > 0
  {
    if n == 0 then 1 else 2 * Pow2(n - 1)
  }

  /** x << n, unbounded. */
  function Shl(x: nat, n: nat): nat {
    if n == 0 then x else 2 * Shl(x, n - 1)
  }

  /** x >> n. */
  function Shr(x: nat, n: nat): nat {
    if n == 0 then x else Shr(x, n - 1) / 2
  }

  /** The n low bits of x. */
  function Low(x: nat, n: nat): nat {
    if n == 0 then 0 else 2 * Low(x / 2, n - 1) + x % 2
  }

  lemma {:induction false} ShlIsTimes(x: nat, n: nat)
    ensures Shl(x, n) == x * Pow2(n)
  {
    if n > 0 {
      ShlIsTimes(x, n - 1);
    }
  }

  lemma {:induction false} ShrIsDiv(x: nat, n: nat)
    ensures Shr(x, n) == x / Pow2(n)
  {
    if n > 0 {
      ShrIsDiv(x, n - 1);
      DivDiv(x, Pow2(n - 1), 2);
    }
  }

  lemma {:induction false} LowIsMod(x: nat, n: nat)
    ensures Low(x, n) == x % Pow2(n)
  {
    if n > 0 {
      LowIsMod(x / 2, n - 1);
      ModSplit(x, Pow2(n - 1), 2);
    }
  }

  lemma {:induction false} Pow2Add(a: nat, b: nat)
    ensures Pow2(a + b) == Pow2(a) * Pow2(b)
  {
    if a > 0 {
      Pow2Add(a - 1, b);
    }
  }

  lemma Pow2Of32()
    ensures Pow2(32) == 0x1_0000_0000
  {
    Pow2Add(16, 16);
    Pow2Add(8, 8);
    assert Pow2(8) == 0x100;
  }

  /** Cutting a number to 32 bits leaves its low bits alone. */
  lemma TruncationKeepsLow(x: nat, n: nat)
    requires n <= 32
    ensures Low(x % 0x1_0000_0000, n) == Low(x, n)
  {
    Pow2Add(32 - n, n);
    Pow2Of32();
    ModOfMod(x, 0x1_0000_0000, Pow2(32 - n), Pow2(n));
    LowIsMod(x, n);
    LowIsMod(x % 0x1_0000_0000, n);
  }

  /** Shifting `width` bits d in. */
  lemma {:induction false} LowOfShifted(x: nat, n: nat, width: nat, d: nat)
    requires d < Pow2(width)
    ensures Low(Shl(x, width) + d, n + width) == Shl(Low(x, n), width) + d
  {
    if width > 0 {
      LowOfShifted(x, n, width - 1, d / 2);
    }
  }

  /** Taking the top `width` of n low bits. */
  lemma TakeTop(x: nat, n: nat, rest: nat, width: nat)
    requires n == rest + width
    ensures Low(x, n) == Shl(Shr(x, rest) % Pow2(width), rest) + Low(x, rest)
  {
    Pow2Add(width, rest);
    ModSplit(x, Pow2(width), Pow2(rest));
    LowIsMod(x, n);
    LowIsMod(x, rest);
    ShrIsDiv(x, rest);
    ShlIsTimes(Shr(x, rest) % Pow2(width), rest);
  }

  lemma {:induction false} ShlAdd(x: nat, y: nat, n: nat)
    ensures Shl(x + y, n) == Shl(x, n) + Shl(y, n)
  {
    if n > 0 {
      ShlAdd(x, y, n - 1);
    }
  }

  lemma {:induction false} ShlShl(x: nat, m: nat, n: nat)
    ensures Shl(Shl(x, m), n) == Shl(x, m + n)
  {
    if n > 0 {
      ShlShl(x, m, n - 1);
    }
  }

  lemma {:induction false} ShrShl(x: nat, y: nat, n: nat)
    requires y < Pow2(n)
    ensures Shr(Shl(x, n) + y, n) == x
  {
    ShlIsTimes(x, n);
    ShrIsDiv(Shl(x, n) + y, n);
    DivModUnique(Shl(x, n) + y, Pow2(n), x, y);
  }
}
