/** The pseudo-random generators (libarchlab/archlab.h). */
module Generators {

  // ---------- runs of any invertible step ----------

  /** `f` permutes the values other than `zero`, with inverse `g`. */
  ghost predicate Permutes<T(!new)>(f: T -> T, g: T -> T, zero: T) {
    && (forall x :: x != zero ==> f(x) != zero && g(f(x)) == x)
    && (forall y :: y != zero ==> g(y) != zero && f(g(y)) == y)
  }

  function Iterate<T>(f: T -> T, n: nat, x: T): T {
    if n == 0 then x else f(Iterate(f, n - 1, x))
  }

  /** A run from a seed other than zero never reaches zero ... */
  lemma {:induction false} NeverZero<T(!new)>(f: T -> T, g: T -> T, zero: T, n: nat, x: T)
    requires Permutes(f, g, zero) && x != zero
    ensures Iterate(f, n, x) != zero
  {
    if n > 0 { NeverZero(f, g, zero, n - 1, x); }
  }

  /** ... and runs from different seeds never merge. */
  lemma {:induction false} NeverMerge<T(!new)>(f: T -> T, g: T -> T, zero: T, n: nat, x: T, y: T)
    requires Permutes(f, g, zero) && x != zero && y != zero && x != y
    ensures Iterate(f, n, x) != Iterate(f, n, y)
  {
    if n > 0 {
      NeverMerge(f, g, zero, n - 1, x, y);
      NeverZero(f, g, zero, n - 1, x);
      NeverZero(f, g, zero, n - 1, y);
      assert g(f(Iterate(f, n - 1, x))) == Iterate(f, n - 1, x);
    }
  }

  // ---------- xorshift ----------

  function Left13(x: bv64): bv64 { x ^ (x << 13) }
  function Right7(x: bv64): bv64 { x ^ (x >> 7) }
  function Left17(x: bv64): bv64 { x ^ (x << 17) }

  function UnLeft13(y: bv64): bv64 { y ^ (y << 13) ^ (y << 26) ^ (y << 39) ^ (y << 52) }
  function UnRight7(y: bv64): bv64 {
    y ^ (y >> 7) ^ (y >> 14) ^ (y >> 21) ^ (y >> 28) ^ (y >> 35) ^ (y >> 42) ^ (y >> 49) ^ (y >> 56) ^ (y >> 63)
  }
  function UnLeft17(y: bv64): bv64 { y ^ (y << 17) ^ (y << 34) ^ (y << 51) }

  lemma Left13Undone(x: bv64)
    ensures UnLeft13(Left13(x)) == x
  {
    assert Left13(x) == x ^ (x << 13);
    assert UnLeft13(x ^ (x << 13)) == x;
  }

  lemma Right7Undone(x: bv64)
    ensures UnRight7(Right7(x)) == x
  {
    assert Right7(x) == x ^ (x >> 7);
    assert UnRight7(x ^ (x >> 7)) == x;
  }

  lemma Left17Undone(x: bv64)
    ensures UnLeft17(Left17(x)) == x
  {
    assert Left17(x) == x ^ (x << 17);
    assert UnLeft17(x ^ (x << 17)) == x;
  }

  lemma Left13Reached(y: bv64)
    ensures Left13(UnLeft13(y)) == y
  {
    assert UnLeft13(y) == y ^ (y << 13) ^ (y << 26) ^ (y << 39) ^ (y << 52);
    assert Left13(y ^ (y << 13) ^ (y << 26) ^ (y << 39) ^ (y << 52)) == y;
  }

  lemma Right7Reached(y: bv64)
    ensures Right7(UnRight7(y)) == y
  {
    var x := y ^ (y >> 7) ^ (y >> 14) ^ (y >> 21) ^ (y >> 28) ^ (y >> 35) ^ (y >> 42)
             ^ (y >> 49) ^ (y >> 56) ^ (y >> 63);
    assert UnRight7(y) == x;
    assert Right7(x) == y;
  }

  lemma Left17Reached(y: bv64)
    ensures Left17(UnLeft17(y)) == y
  {
    assert UnLeft17(y) == y ^ (y << 17) ^ (y << 34) ^ (y << 51);
    assert Left17(y ^ (y << 17) ^ (y << 34) ^ (y << 51)) == y;
  }

  lemma ZeroFixed()
    ensures Left13(0) == 0 && Right7(0) == 0 && Left17(0) == 0
  {
  }

  /** A seed of 0 is replaced by 1. */
  function FastRandStep(x: bv64): bv64 { Left17(Right7(Left13(if x == 0 then 1 else x))) }

  lemma Left13Is(x: bv64)
    ensures Left13(x) == x ^ (x << 13)
  {
  }

  lemma Right7Is(x: bv64)
    ensures Right7(x) == x ^ (x >> 7)
  {
  }

  lemma Left17Is(x: bv64)
    ensures Left17(x) == x ^ (x << 17)
  {
  }

  /** One step, bit by bit: three shifts, each added to what it shifts. */
  lemma FastRandStepIs(seed: bv64, x: bv64, y: bv64, z: bv64)
    ensures x == (if seed == 0 then 1 else seed) && y == x ^ (x << 13) && z == y ^ (y >> 7) ==>
      FastRandStep(seed) == z ^ (z << 17)
  {
    hide Left13, Right7, Left17;
    Left13Is(x);
    Right7Is(y);
    Left17Is(z);
  }

  function FastRandBack(y: bv64): bv64 { UnLeft13(UnRight7(UnLeft17(y))) }

  /** The xorshift step permutes the seeds other than 0. */
  lemma FastRandPermutes()
    ensures Permutes(FastRandStep, FastRandBack, 0)
  {
    hide Left13, Right7, Left17, UnLeft13, UnRight7, UnLeft17;
    ZeroFixed();
    Left13Undone(0);
    Right7Undone(0);
    Left17Undone(0);
    forall x: bv64 | x != 0
      ensures FastRandStep(x) != 0 && FastRandBack(FastRandStep(x)) == x
      ensures FastRandBack(x) != 0 && FastRandStep(FastRandBack(x)) == x
    {
      Left13Undone(x);
      Right7Undone(Left13(x));
      Left17Undone(Right7(Left13(x)));
      Left17Reached(x);
      Right7Reached(UnLeft17(x));
      Left13Reached(UnRight7(UnLeft17(x)));
    }
  }

  /** The generator works on its seed in place. */
  method FastRand(seed: array<bv64>) returns (r: bv64)
    requires seed.Length == 1
    modifies seed
    ensures r == seed[0] == FastRandStep(old(seed[0]))
  {
    hide Left13, Right7, Left17;
    if seed[0] == 0 { seed[0] := 1; }
    var x := seed[0];
    x := Left13(x);
    x := Right7(x);
    x := Left17(x);
    seed[0] := x;
    return seed[0];
  }

  // ---------- linear feedback shift registers ----------

  /** Taps 64, 63, 61, 60. */
  function Shift64(x: bv64): bv64 { (x >> 1) ^ ((0 - (x & 1)) & 0xD800000000000000) }
  function Unshift64(y: bv64): bv64 {
    if y & 0x8000000000000000 != 0 then ((y ^ 0xD800000000000000) << 1) | 1 else y << 1
  }
  function Lfsr64(x: bv64): bv64 { Shift64(if x == 0 then 1 else x) }

  /** One step, bit by bit: a shift, and the taps if the bit shifted out is set. */
  lemma Lfsr64Is(x: bv64)
    ensures Lfsr64(x) ==
      if x == 0 then 0xD800000000000000 else if x & 1 == 1 then (x >> 1) ^ 0xD800000000000000 else x >> 1
  {
    hide Shift64;
    Parity64(x);
    if x == 0 {
      Shift64Odd(1);
    } else if x & 1 == 1 {
      Shift64Odd(x);
    } else {
      Shift64Even(x);
    }
  }

  lemma Shift64Odd(x: bv64)
    requires x & 1 == 1
    ensures Shift64(x) == (x >> 1) ^ 0xD800000000000000
  {
  }

  lemma Shift64Even(x: bv64)
    requires x & 1 == 0
    ensures Shift64(x) == x >> 1
  {
  }

  lemma Unshift64Odd(x: bv64)
    requires x & 1 == 1
    ensures Unshift64((x >> 1) ^ 0xD800000000000000) == x
  {
  }

  lemma Unshift64Even(x: bv64)
    requires x & 1 == 0
    ensures Unshift64(x >> 1) == x
  {
  }

  lemma Parity64(x: bv64)
    ensures x & 1 == 0 || x & 1 == 1
  {
  }

  lemma Reached64Set(y: bv64)
    requires y & 0x8000000000000000 != 0
    ensures Unshift64(y) == ((y ^ 0xD800000000000000) << 1) | 1
    ensures Shift64(((y ^ 0xD800000000000000) << 1) | 1) == y
  {
  }

  lemma Reached64Clear(y: bv64)
    requires y & 0x8000000000000000 == 0
    ensures Unshift64(y) == y << 1
    ensures Shift64(y << 1) == y
  {
  }

  lemma Lfsr64Permutes()
    ensures Permutes(Lfsr64, Unshift64, 0)
  {
    assert Shift64(0) == 0 && Unshift64(0) == 0;
    hide Shift64, Unshift64;
    forall x: bv64 | x != 0
      ensures Lfsr64(x) != 0 && Unshift64(Lfsr64(x)) == x
      ensures Unshift64(x) != 0 && Lfsr64(Unshift64(x)) == x
    {
      Parity64(x);
      if x & 1 == 1 {
        Shift64Odd(x);
        Unshift64Odd(x);
      } else {
        Shift64Even(x);
        Unshift64Even(x);
      }
      if x & 0x8000000000000000 != 0 { Reached64Set(x); } else { Reached64Clear(x); }
    }
  }

  /** RandLFSR64 works on its seed in place; so do the narrower ones below. */
  method RandLfsr64(seed: array<bv64>) returns (r: bv64)
    requires seed.Length == 1
    modifies seed
    ensures r == seed[0] == Lfsr64(old(seed[0]))
  {
    hide Shift64;
    if seed[0] == 0 { seed[0] := 1; }
    seed[0] := Shift64(seed[0]);
    return seed[0];
  }

  /** Taps 32, 30, 26, 25. */
  function Shift32(x: bv32): bv32 { (x >> 1) ^ ((0 - (x & 1)) & 0xA3000000) }
  function Unshift32(y: bv32): bv32 { if y & 0x80000000 != 0 then ((y ^ 0xA3000000) << 1) | 1 else y << 1 }
  function Lfsr32(x: bv32): bv32 { Shift32(if x == 0 then 1 else x) }

  /** One step, bit by bit: a shift, and the taps if the bit shifted out is set. */
  lemma Lfsr32Is(x: bv32)
    ensures Lfsr32(x) ==
      if x == 0 then 0xA3000000 else if x & 1 == 1 then (x >> 1) ^ 0xA3000000 else x >> 1
  {
    hide Shift32;
    Parity32(x);
    if x == 0 {
      Shift32Odd(1);
    } else if x & 1 == 1 {
      Shift32Odd(x);
    } else {
      Shift32Even(x);
    }
  }

  lemma Shift32Odd(x: bv32)
    requires x & 1 == 1
    ensures Shift32(x) == (x >> 1) ^ 0xA3000000
  {
  }

  lemma Shift32Even(x: bv32)
    requires x & 1 == 0
    ensures Shift32(x) == x >> 1
  {
  }

  lemma Unshift32Odd(x: bv32)
    requires x & 1 == 1
    ensures Unshift32((x >> 1) ^ 0xA3000000) == x
  {
  }

  lemma Unshift32Even(x: bv32)
    requires x & 1 == 0
    ensures Unshift32(x >> 1) == x
  {
  }

  lemma Parity32(x: bv32)
    ensures x & 1 == 0 || x & 1 == 1
  {
  }

  lemma Reached32Set(y: bv32)
    requires y & 0x80000000 != 0
    ensures Unshift32(y) == ((y ^ 0xA3000000) << 1) | 1
    ensures Shift32(((y ^ 0xA3000000) << 1) | 1) == y
  {
  }

  lemma Reached32Clear(y: bv32)
    requires y & 0x80000000 == 0
    ensures Unshift32(y) == y << 1
    ensures Shift32(y << 1) == y
  {
  }

  lemma Lfsr32Permutes()
    ensures Permutes(Lfsr32, Unshift32, 0)
  {
    assert Shift32(0) == 0 && Unshift32(0) == 0;
    hide Shift32, Unshift32;
    forall x: bv32 | x != 0
      ensures Lfsr32(x) != 0 && Unshift32(Lfsr32(x)) == x
      ensures Unshift32(x) != 0 && Lfsr32(Unshift32(x)) == x
    {
      Parity32(x);
      if x & 1 == 1 {
        Shift32Odd(x);
        Unshift32Odd(x);
      } else {
        Shift32Even(x);
        Unshift32Even(x);
      }
      if x & 0x80000000 != 0 { Reached32Set(x); } else { Reached32Clear(x); }
    }
  }

  method RandLfsr32(seed: array<bv32>) returns (r: bv32)
    requires seed.Length == 1
    modifies seed
    ensures r == seed[0] == Lfsr32(old(seed[0]))
  {
    hide Shift32;
    if seed[0] == 0 { seed[0] := 1; }
    seed[0] := Shift32(seed[0]);
    return seed[0];
  }

  /** Taps 16, 14, 13, 11. */
  function Shift16(x: bv16): bv16 { (x >> 1) ^ ((0 - (x & 1)) & 0xB400) }
  function Unshift16(y: bv16): bv16 { if y & 0x8000 != 0 then ((y ^ 0xB400) << 1) | 1 else y << 1 }
  function Lfsr16(x: bv16): bv16 { Shift16(if x == 0 then 1 else x) }

  /** One step, bit by bit: a shift, and the taps if the bit shifted out is set. */
  lemma Lfsr16Is(x: bv16)
    ensures Lfsr16(x) ==
      if x == 0 then 0xB400 else if x & 1 == 1 then (x >> 1) ^ 0xB400 else x >> 1
  {
    hide Shift16;
    Parity16(x);
    if x == 0 {
      Shift16Odd(1);
    } else if x & 1 == 1 {
      Shift16Odd(x);
    } else {
      Shift16Even(x);
    }
  }

  lemma Shift16Odd(x: bv16)
    requires x & 1 == 1
    ensures Shift16(x) == (x >> 1) ^ 0xB400
  {
  }

  lemma Shift16Even(x: bv16)
    requires x & 1 == 0
    ensures Shift16(x) == x >> 1
  {
  }

  lemma Parity16(x: bv16)
    ensures x & 1 == 0 || x & 1 == 1
  {
  }

  lemma Shift16Undone(x: bv16)
    ensures Unshift16(Shift16(x)) == x
  {
    assert Shift16(x) == (x >> 1) ^ ((0 - (x & 1)) & 0xB400);
    assert Unshift16((x >> 1) ^ ((0 - (x & 1)) & 0xB400)) == x;
  }

  lemma Shift16Reached(y: bv16)
    ensures Shift16(Unshift16(y)) == y
  {
    var x := if y & 0x8000 != 0 then ((y ^ 0xB400) << 1) | 1 else y << 1;
    assert Unshift16(y) == x;
    assert Shift16(x) == y;
  }

  lemma Lfsr16Permutes()
    ensures Permutes(Lfsr16, Unshift16, 0)
  {
    assert Shift16(0) == 0 && Unshift16(0) == 0;
    hide Shift16, Unshift16;
    forall x: bv16 | x != 0
      ensures Lfsr16(x) != 0 && Unshift16(Lfsr16(x)) == x
      ensures Unshift16(x) != 0 && Lfsr16(Unshift16(x)) == x
    {
      Shift16Undone(x);
      Shift16Reached(x);
    }
  }

  method RandLfsr16(seed: array<bv16>) returns (r: bv16)
    requires seed.Length == 1
    modifies seed
    ensures r == seed[0] == Lfsr16(old(seed[0]))
  {
    hide Shift16;
    if seed[0] == 0 { seed[0] := 1; }
    seed[0] := Shift16(seed[0]);
    return seed[0];
  }

  /** Taps 8, 6, 5, 4. */
  function Shift8(x: bv8): bv8 { (x >> 1) ^ ((0 - (x & 1)) & 0xB8) }
  function Unshift8(y: bv8): bv8 { if y & 0x80 != 0 then ((y ^ 0xB8) << 1) | 1 else y << 1 }
  function Lfsr8(x: bv8): bv8 { Shift8(if x == 0 then 1 else x) }

  /** One step, bit by bit: a shift, and the taps if the bit shifted out is set. */
  lemma Lfsr8Is(x: bv8)
    ensures Lfsr8(x) ==
      if x == 0 then 0xB8 else if x & 1 == 1 then (x >> 1) ^ 0xB8 else x >> 1
  {
  }

  lemma Shift8Undone(x: bv8)
    ensures Unshift8(Shift8(x)) == x
  {
    assert Shift8(x) == (x >> 1) ^ ((0 - (x & 1)) & 0xB8);
    assert Unshift8((x >> 1) ^ ((0 - (x & 1)) & 0xB8)) == x;
  }

  lemma Shift8Reached(y: bv8)
    ensures Shift8(Unshift8(y)) == y
  {
    var x := if y & 0x80 != 0 then ((y ^ 0xB8) << 1) | 1 else y << 1;
    assert Unshift8(y) == x;
    assert Shift8(x) == y;
  }

  lemma Lfsr8Permutes()
    ensures Permutes(Lfsr8, Unshift8, 0)
  {
    assert Shift8(0) == 0 && Unshift8(0) == 0;
    hide Shift8, Unshift8;
    forall x: bv8 | x != 0
      ensures Lfsr8(x) != 0 && Unshift8(Lfsr8(x)) == x
      ensures Unshift8(x) != 0 && Lfsr8(Unshift8(x)) == x
    {
      Shift8Undone(x);
      Shift8Reached(x);
    }
  }

  method RandLfsr8(seed: array<bv8>) returns (r: bv8)
    requires seed.Length == 1
    modifies seed
    ensures r == seed[0] == Lfsr8(old(seed[0]))
  {
    hide Shift8;
    if seed[0] == 0 { seed[0] := 1; }
    seed[0] := Shift8(seed[0]);
    return seed[0];
  }
}
