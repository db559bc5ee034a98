/** The 8-bit LFSR runs through every seed other than 0 before it repeats (libarchlab/archlab.h).

    A step is linear: it is given by what becomes of each single bit, and so is a jump by any number
    of steps.  Jumps of a proper divisor of 255 steps leave no seed where it was. */
module Periods {
  import opened Generators

  // ---------- runs that return ----------

  ghost predicate Returns<T(!new)>(f: T -> T, n: nat, x: T) { Iterate(f, n, x) == x }

  lemma {:induction false} IterateAdds<T>(f: T -> T, a: nat, b: nat, x: T)
    ensures Iterate(f, a + b, x) == Iterate(f, a, Iterate(f, b, x))
  {
    if a > 0 { IterateAdds(f, a - 1, b, x); }
  }

  /** Whole rounds of m steps can be left out. */
  lemma {:induction false} RoundsLeftOut<T(!new)>(f: T -> T, m: nat, c: nat, r: nat, x: T)
    requires Returns(f, m, x)
    ensures c * m + r >= 0 && Iterate(f, c * m + r, x) == Iterate(f, r, x)
  {
    if c > 0 {
      assert c * m + r == ((c - 1) * m + r) + m;
      IterateAdds(f, (c - 1) * m + r, m, x);
      RoundsLeftOut(f, m, c - 1, r, x);
    }
  }

  lemma ReturnsMod<T(!new)>(f: T -> T, n: nat, m: nat, x: T)
    requires Returns(f, n, x) && Returns(f, m, x) && m > 0
    ensures Returns(f, n % m, x)
  {
    RoundsLeftOut(f, m, n / m, n % m, x);
    assert n / m * m + n % m == n;
  }

  /** The shortest return divides every return. */
  lemma {:induction false} Shortest<T(!new)>(f: T -> T, n: nat, x: T) returns (m: nat)
    requires n > 0 && Returns(f, n, x)
    ensures 0 < m <= n && Returns(f, m, x) && forall k: nat :: Returns(f, k, x) ==> k % m == 0
  {
    if k: nat :| 0 < k < n && Returns(f, k, x) {
      m := Shortest(f, k, x);
    } else {
      m := n;
      forall k: nat | Returns(f, k, x) ensures k % m == 0 { ReturnsMod(f, k, m, x); }
    }
  }

  // ---------- proper divisors of 255 ----------

  /** A proper divisor of 255 divides 85, 51 or 15. */
  lemma Divisors255(m: nat)
    requires 0 < m < 255 && 255 % m == 0
    ensures exists c: nat :: c * m == 85 || c * m == 51 || c * m == 15
  {
    var c := 255 / m;
    assert c * m == 255;
    if m < 17 {
      SmallFactor(m, c);
      assert 85 * m == 85 || 17 * m == 51 || 17 * m == 85 || 1 * m == 15;
    } else {
      assert c < 17 by { if c >= 17 { LargeProduct(c, m); } }
      SmallFactor(c, m);
      assert 1 * m == 85 || 1 * m == 51 || 5 * m == 85;
    }
  }

  lemma LargeProduct(a: nat, b: nat)
    requires a >= 17 && b >= 17
    ensures a * b >= 289
  {
    assert (a - 17) * (b - 17) >= 0;
  }

  lemma SmallFactor(a: nat, b: nat)
    requires a * b == 255 && 1 <= a < 17
    ensures (a == 1 && b == 255) || (a == 3 && b == 85) || (a == 5 && b == 51) || (a == 15 && b == 17)
  {
    if a < 9 {
      assert a == 1 || a == 2 || a == 3 || a == 4 || a == 5 || a == 6 || a == 7 || a == 8;
    } else {
      assert a == 9 || a == 10 || a == 11 || a == 12 || a == 13 || a == 14 || a == 15 || a == 16;
    }
  }

  // ---------- jumps ----------

  function Bit(x: bv8, bit: bv8, c: bv8): bv8 { if x & bit != 0 then c else 0 }

  /** The linear map with the given images of the single bits, the lowest first. */
  function Linear(c0: bv8, c1: bv8, c2: bv8, c3: bv8, c4: bv8, c5: bv8, c6: bv8, c7: bv8, x: bv8): bv8 {
    Bit(x, 1, c0) ^ Bit(x, 2, c1) ^ Bit(x, 4, c2) ^ Bit(x, 8, c3)
    ^ Bit(x, 16, c4) ^ Bit(x, 32, c5) ^ Bit(x, 64, c6) ^ Bit(x, 128, c7)
  }

  function Jump1(x: bv8): bv8 {
    Linear(0xB8, 0x01, 0x02, 0x04, 0x08, 0x10, 0x20, 0x40, x)
  }

  function Jump2(x: bv8): bv8 {
    Linear(0x5C, 0xB8, 0x01, 0x02, 0x04, 0x08, 0x10, 0x20, x)
  }

  function Jump4(x: bv8): bv8 {
    Linear(0x17, 0x2E, 0x5C, 0xB8, 0x01, 0x02, 0x04, 0x08, x)
  }

  function Jump8(x: bv8): bv8 {
    Linear(0x64, 0xC8, 0xE1, 0xB3, 0x17, 0x2E, 0x5C, 0xB8, x)
  }

  function Jump16(x: bv8): bv8 {
    Linear(0x93, 0x57, 0xAE, 0x2D, 0x5A, 0xB4, 0x19, 0x32, x)
  }

  function Jump32(x: bv8): bv8 {
    Linear(0xAC, 0x29, 0x52, 0xA4, 0x39, 0x72, 0xE4, 0xB9, x)
  }

  function Jump64(x: bv8): bv8 {
    Linear(0x3D, 0x7A, 0xF4, 0x99, 0x43, 0x86, 0x7D, 0xFA, x)
  }

  function Jump128(x: bv8): bv8 {
    Linear(0x95, 0x5B, 0xB6, 0x1D, 0x3A, 0x74, 0xE8, 0xA1, x)
  }

  function Jump256(x: bv8): bv8 {
    Linear(0xB8, 0x01, 0x02, 0x04, 0x08, 0x10, 0x20, 0x40, x)
  }

  function Jump3(x: bv8): bv8 {
    Linear(0x2E, 0x5C, 0xB8, 0x01, 0x02, 0x04, 0x08, 0x10, x)
  }

  function Jump48(x: bv8): bv8 {
    Linear(0x05, 0x0A, 0x14, 0x28, 0x50, 0xA0, 0x31, 0x62, x)
  }

  function Jump51(x: bv8): bv8 {
    Linear(0x96, 0x5D, 0xBA, 0x05, 0x0A, 0x14, 0x28, 0x50, x)
  }

  function Jump5(x: bv8): bv8 {
    Linear(0xB3, 0x17, 0x2E, 0x5C, 0xB8, 0x01, 0x02, 0x04, x)
  }

  function Jump80(x: bv8): bv8 {
    Linear(0xFE, 0x8D, 0x6B, 0xD6, 0xDD, 0xCB, 0xE7, 0xBF, x)
  }

  function Jump85(x: bv8): bv8 {
    Linear(0xDA, 0xC5, 0xFB, 0x87, 0x7F, 0xFE, 0x8D, 0x6B, x)
  }

  lemma Jumps1(x: bv8)
    ensures Iterate(Shift8, 1, x) == Shift8(x) == Jump1(x)
  {
    assert Iterate(Shift8, 0, x) == x;
  }

  lemma Jumps2(x: bv8)
    ensures Iterate(Shift8, 2, x) == Jump2(x)
  {
    hide Iterate, Shift8;
    IterateAdds(Shift8, 1, 1, x);
    Jumps1(x);
    Jumps1(Jump1(x));
  }

  lemma Jumps4(x: bv8)
    ensures Iterate(Shift8, 4, x) == Jump4(x)
  {
    hide Iterate, Shift8;
    IterateAdds(Shift8, 2, 2, x);
    Jumps2(x);
    Jumps2(Jump2(x));
  }

  lemma Jumps8(x: bv8)
    ensures Iterate(Shift8, 8, x) == Jump8(x)
  {
    hide Iterate, Shift8;
    IterateAdds(Shift8, 4, 4, x);
    Jumps4(x);
    Jumps4(Jump4(x));
  }

  lemma Jumps16(x: bv8)
    ensures Iterate(Shift8, 16, x) == Jump16(x)
  {
    hide Iterate, Shift8;
    IterateAdds(Shift8, 8, 8, x);
    Jumps8(x);
    Jumps8(Jump8(x));
  }

  lemma Jumps32(x: bv8)
    ensures Iterate(Shift8, 32, x) == Jump32(x)
  {
    hide Iterate, Shift8;
    IterateAdds(Shift8, 16, 16, x);
    Jumps16(x);
    Jumps16(Jump16(x));
  }

  lemma Jumps64(x: bv8)
    ensures Iterate(Shift8, 64, x) == Jump64(x)
  {
    hide Iterate, Shift8;
    IterateAdds(Shift8, 32, 32, x);
    Jumps32(x);
    Jumps32(Jump32(x));
  }

  lemma Jumps128(x: bv8)
    ensures Iterate(Shift8, 128, x) == Jump128(x)
  {
    hide Iterate, Shift8;
    IterateAdds(Shift8, 64, 64, x);
    Jumps64(x);
    Jumps64(Jump64(x));
  }

  lemma Jumps256(x: bv8)
    ensures Iterate(Shift8, 256, x) == Jump256(x)
  {
    hide Iterate, Shift8;
    IterateAdds(Shift8, 128, 128, x);
    Jumps128(x);
    Jumps128(Jump128(x));
  }

  lemma Jumps3(x: bv8)
    ensures Iterate(Shift8, 3, x) == Jump3(x)
  {
    hide Iterate, Shift8;
    IterateAdds(Shift8, 2, 1, x);
    Jumps1(x);
    Jumps2(Jump1(x));
  }

  lemma Jumps48(x: bv8)
    ensures Iterate(Shift8, 48, x) == Jump48(x)
  {
    hide Iterate, Shift8;
    IterateAdds(Shift8, 32, 16, x);
    Jumps16(x);
    Jumps32(Jump16(x));
  }

  lemma Jumps51(x: bv8)
    ensures Iterate(Shift8, 51, x) == Jump51(x)
  {
    hide Iterate, Shift8;
    IterateAdds(Shift8, 48, 3, x);
    Jumps3(x);
    Jumps48(Jump3(x));
  }

  lemma Jumps5(x: bv8)
    ensures Iterate(Shift8, 5, x) == Jump5(x)
  {
    hide Iterate, Shift8;
    IterateAdds(Shift8, 4, 1, x);
    Jumps1(x);
    Jumps4(Jump1(x));
  }

  lemma Jumps80(x: bv8)
    ensures Iterate(Shift8, 80, x) == Jump80(x)
  {
    hide Iterate, Shift8;
    IterateAdds(Shift8, 64, 16, x);
    Jumps16(x);
    Jumps64(Jump16(x));
  }

  lemma Jumps85(x: bv8)
    ensures Iterate(Shift8, 85, x) == Jump85(x)
  {
    hide Iterate, Shift8;
    IterateAdds(Shift8, 80, 5, x);
    Jumps5(x);
    Jumps80(Jump5(x));
  }

  // ---------- the period ----------

  lemma NoFixedPoint(x: bv8)
    requires x != 0
    ensures Jump85(x) != x && Jump51(x) != x && Jump16(x) != Jump1(x)
  {
  }

  lemma Jump256Is1(x: bv8)
    ensures Jump256(x) == Jump1(x)
  {
  }

  /** 255 steps lead back. */
  lemma Returns255(x: bv8)
    ensures Returns(Shift8, 255, x)
  {
    hide Shift8, Unshift8;
    Jumps256(x);
    Jump256Is1(x);
    Jumps1(x);
    hide Jump256, Jump1;
    assert Iterate(Shift8, 256, x) == Shift8(Iterate(Shift8, 255, x));
    Shift8Undone(x);
    Shift8Undone(Iterate(Shift8, 255, x));
  }

  lemma Returns15(x: bv8)
    requires Returns(Shift8, 15, x)
    ensures Jump16(x) == Jump1(x)
  {
    hide Shift8;
    assert Iterate(Shift8, 16, x) == Shift8(Iterate(Shift8, 15, x));
    Jumps16(x);
    Jumps1(x);
  }

  /** A proper divisor of 255 leads back nowhere. */
  lemma NoShorterReturn(m: nat, x: bv8)
    requires x != 0 && 0 < m < 255 && 255 % m == 0
    ensures !Returns(Shift8, m, x)
  {
    hide Shift8, Jump85, Jump51, Jump16, Jump1, Iterate;
    if Returns(Shift8, m, x) {
      NoFixedPoint(x);
      Divisors255(m);
      var c: nat :| c * m == 85 || c * m == 51 || c * m == 15;
      RoundsLeftOut(Shift8, m, c, 0, x);
      Stays(Shift8, x);
      Jumps85(x);
      Jumps51(x);
      if c * m == 15 { Returns15(x); }
    }
  }

  lemma Stays<T>(f: T -> T, x: T)
    ensures Iterate(f, 0, x) == x
  {
  }

  /** From a seed other than 0 the test for 0 never applies. */
  lemma {:induction false} SameRun(n: nat, x: bv8)
    requires x != 0
    ensures Iterate(Lfsr8, n, x) == Iterate(Shift8, n, x)
  {
    hide Shift8, Unshift8;
    if n > 0 {
      SameRun(n - 1, x);
      Lfsr8Permutes();
      NeverZero(Lfsr8, Unshift8, 0, n - 1, x);
    }
  }

  /** A run from a seed other than 0 is back at its seed exactly after every 255 steps. */
  lemma FullPeriod8(n: nat, x: bv8)
    requires x != 0
    ensures Iterate(Lfsr8, n, x) == x <==> n % 255 == 0
  {
    hide Shift8, Unshift8, Iterate, Lfsr8;
    SameRun(n, x);
    Returns255(x);
    if n % 255 == 0 {
      RoundsLeftOut(Shift8, 255, n / 255, 0, x);
      Stays(Shift8, x);
    } else if Returns(Shift8, n, x) {
      var m := Shortest(Shift8, n, x);
      if m < 255 { NoShorterReturn(m, x); }
    }
  }
}
