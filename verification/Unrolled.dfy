/** Unrolled summation loops against the rolled one (examples/x86-asm).

    The summed term is an arbitrary function of the index.  A sum is kept modulo the size of
    its C type; indices stay inside theirs, as the bounds on `n` say. */
module Unrolled {
  type Term = int -> int

  const INT: nat := 0x1_0000_0000
  const LONG: nat := 0x1_0000_0000_0000_0000

  function Sum(f: Term, n: int): int
    decreases if n < 0 then 0 else n
  {
    if n <= 0 then 0 else Sum(f, n - 1) + f(n - 1)
  }

  /** The sum of the terms 0 to n - 1: of none if n is not positive, and one term more for n + 1. */
  lemma SumIs(f: Term, n: int)
    ensures n <= 0 ==> Sum(f, n) == 0
    ensures n >= 0 ==> Sum(f, n + 1) == Sum(f, n) + f(n)
  {
  }

  function Wrap(x: int): nat { x % INT }

  lemma InWord(x: int)
    ensures Wrap(x) == x % 0x1_0000_0000
  {
  }

  lemma WrapAdds(x: int, y: int)
    ensures Wrap(Wrap(x) + y) == Wrap(x + y)
    ensures Wrap(Wrap(x) + Wrap(y)) == Wrap(x + y)
  {
  }

  function RoundUp16(n: int): nat {
    if n <= 0 then 0 else (n + 15) / 16 * 16
  }

  /** C's remainder takes the sign of the dividend. */
  function Rem(a: int, b: int): int
    requires b > 0
  {
    if a >= 0 then a % b else -(-a % b)
  }

  /** `s = s + term(j)` after the first j terms. */
  method Add(f: Term, s: nat, j: nat) returns (s': nat)
    requires s == Wrap(Sum(f, j))
    ensures s' == Wrap(Sum(f, j + 1))
  {
    WrapAdds(Sum(f, j), f(j));
    s' := Wrap(s + f(j));
  }

  /** The macro B of the forms that step the index. */
  method B(f: Term, s: nat, i: nat) returns (s': nat, i': nat)
    requires s == Wrap(Sum(f, i))
    ensures i' == i + 1 && s' == Wrap(Sum(f, i'))
  {
    s' := Add(f, s, i);
    i' := i + 1;
  }

  // ilp_unrolled_1.c
  method Rolled(n: int, f: Term) returns (s: nat)
    ensures s == Sum(f, 8 * n) % 0x1_0000_0000
  {
    s := 0;
    var i := 0;
    while i < n * 8
      invariant i >= 0 && (i <= n * 8 || i == 0) && s == Wrap(Sum(f, i))
    {
      s, i := B(f, s, i);
    }
  }

  /** Where the 16-way loops stand between rounds. */
  ghost predicate Rounding(n: int, i: nat) {
    i % 16 == 0 && (i == 0 || i < n + 16)
  }

  lemma RoundingDone(n: int, i: nat)
    requires Rounding(n, i) && i >= n
    ensures i == RoundUp16(n)
  {
  }

  // ilp_unrolled_16.c
  method Unrolled16(n: int, f: Term) returns (s: nat)
    requires n <= 0x7fff_fff0
    ensures s == Sum(f, RoundUp16(n)) % 0x1_0000_0000
  {
    InWord(Sum(f, RoundUp16(n)));
    hide Sum, Wrap, RoundUp16;
    s := Nothing(f);
    var i: nat := 0;
    while i < n
      invariant s == Wrap(Sum(f, i)) && Rounding(n, i)
    {
      s, i := B(f, s, i); s, i := B(f, s, i); s, i := B(f, s, i); s, i := B(f, s, i);
      s, i := B(f, s, i); s, i := B(f, s, i); s, i := B(f, s, i); s, i := B(f, s, i);
      s, i := B(f, s, i); s, i := B(f, s, i); s, i := B(f, s, i); s, i := B(f, s, i);
      s, i := B(f, s, i); s, i := B(f, s, i); s, i := B(f, s, i); s, i := B(f, s, i);
    }
    RoundingDone(n, i);
  }

  method Nothing(f: Term) returns (s: nat)
    ensures s == 0 == Wrap(Sum(f, 0))
  {
    s := 0;
  }

  // ilp_unrolled_16_smart.c
  method Unrolled16Smart(n: int, f: Term) returns (s: nat)
    requires n <= 0x7fff_fff0
    ensures s == Sum(f, RoundUp16(n)) % 0x1_0000_0000
  {
    InWord(Sum(f, RoundUp16(n)));
    hide Sum, Wrap, RoundUp16;
    s := Nothing(f);
    var i: nat := 0;
    while i < n
      invariant s == Wrap(Sum(f, i)) && Rounding(n, i)
    {
      s := Add(f, s, i); s := Add(f, s, i + 1); s := Add(f, s, i + 2); s := Add(f, s, i + 3);
      s := Add(f, s, i + 4); s := Add(f, s, i + 5); s := Add(f, s, i + 6); s := Add(f, s, i + 7);
      s := Add(f, s, i + 8); s := Add(f, s, i + 9); s := Add(f, s, i + 10); s := Add(f, s, i + 11);
      s := Add(f, s, i + 12); s := Add(f, s, i + 13); s := Add(f, s, i + 14); s := Add(f, s, i + 15);
      i := i + 16;
    }
    RoundingDone(n, i);
  }

  function Pair(f: Term, j: int): int { f(j) + f(j + 1) }

  /** A pair of terms into one of several accumulators; `z` is what it would hold without wrap-around. */
  method AddPair(f: Term, s: nat, ghost z: int, j: nat) returns (s': nat, ghost z': int)
    requires s == Wrap(z)
    ensures s' == Wrap(z + Pair(f, j)) && z' == z + Pair(f, j)
  {
    WrapAdds(z, f(j));
    WrapAdds(z + f(j), f(j + 1));
    s' := Wrap(s + f(j));
    s' := Wrap(s' + f(j + 1));
    z' := z + f(j) + f(j + 1);
  }

  lemma SumPair(f: Term, i: nat)
    ensures Sum(f, i + 2) == Sum(f, i) + Pair(f, i)
  {
  }

  lemma SumPairs(f: Term, i: nat)
    ensures Sum(f, i + 16) == Sum(f, i) + Pair(f, i) + Pair(f, i + 2) + Pair(f, i + 4) + Pair(f, i + 6)
                            + Pair(f, i + 8) + Pair(f, i + 10) + Pair(f, i + 12) + Pair(f, i + 14)
  {
    hide Sum, Pair;
    SumPair(f, i); SumPair(f, i + 2); SumPair(f, i + 4); SumPair(f, i + 6);
    SumPair(f, i + 8); SumPair(f, i + 10); SumPair(f, i + 12); SumPair(f, i + 14);
  }

  method Total(s: nat, ghost z: int, t: nat, ghost y: int) returns (r: nat)
    requires s == Wrap(z) && t == Wrap(y)
    ensures r == Wrap(z + y)
  {
    WrapAdds(z, y);
    r := Wrap(s + t);
  }

  // ilp_unrolled_16_smarter.c
  method Unrolled16Smarter(n: int, f: Term) returns (r: nat)
    requires n <= 0x7fff_fff0
    ensures r == Sum(f, RoundUp16(n)) % 0x1_0000_0000
  {
    InWord(Sum(f, RoundUp16(n)));
    hide Sum, Wrap, RoundUp16, Pair;
    var s := Nothing(f);
    var s1, s2, s3, s4, s5, s6, s7 := s, s, s, s, s, s, s;
    ghost var z, z1, z2, z3, z4, z5, z6, z7 := 0, 0, 0, 0, 0, 0, 0, 0;
    var i: nat := 0;
    SumNothing(f);
    while i < n
      invariant s == Wrap(z) && s1 == Wrap(z1) && s2 == Wrap(z2) && s3 == Wrap(z3)
      invariant s4 == Wrap(z4) && s5 == Wrap(z5) && s6 == Wrap(z6) && s7 == Wrap(z7)
      invariant z + z1 + z2 + z3 + z4 + z5 + z6 + z7 == Sum(f, i) && Rounding(n, i)
    {
      SumPairs(f, i);
      s, z := AddPair(f, s, z, i);
      s1, z1 := AddPair(f, s1, z1, i + 2);
      s2, z2 := AddPair(f, s2, z2, i + 4);
      s3, z3 := AddPair(f, s3, z3, i + 6);
      s4, z4 := AddPair(f, s4, z4, i + 8);
      s5, z5 := AddPair(f, s5, z5, i + 10);
      s6, z6 := AddPair(f, s6, z6, i + 12);
      s7, z7 := AddPair(f, s7, z7, i + 14);
      i := i + 16;
    }
    RoundingDone(n, i);
    var a := TotalOfFour(s, z, s1, z1, s2, z2, s3, z3);
    var b := TotalOfFour(s4, z4, s5, z5, s6, z6, s7, z7);
    r := Total(a, z + z1 + z2 + z3, b, z4 + z5 + z6 + z7);
  }

  method TotalOfFour(s: nat, ghost z: int, s1: nat, ghost z1: int, s2: nat, ghost z2: int, s3: nat, ghost z3: int)
    returns (r: nat)
    requires s == Wrap(z) && s1 == Wrap(z1) && s2 == Wrap(z2) && s3 == Wrap(z3)
    ensures r == Wrap(z + z1 + z2 + z3)
  {
    hide Wrap;
    var a := Total(s, z, s1, z1);
    var b := Total(s2, z2, s3, z3);
    r := Total(a, z + z1, b, z2 + z3);
    assert z + z1 + (z2 + z3) == z + z1 + z2 + z3;
  }

  lemma SumNothing(f: Term)
    ensures Sum(f, 0) == 0 && Wrap(0) == 0
  {
  }

  lemma RemBelow(n: int, i: nat)
    requires n >= i || n < 0
    ensures n >= i ==> 0 <= Rem(n - i, 5) == (n - i) % 5
    ensures n < 0 ==> n <= Rem(n, 5) <= 0
  {
  }

  lemma SumOfNone(f: Term, n: int)
    requires n <= 0
    ensures Sum(f, n) == 0 && Wrap(0) == 0
  {
  }

  // ilp_unrolled_5.c: the cases of the switch fall through
  method Unrolled5(n: int, f: Term) returns (s: nat)
    requires -0x8000_0000 <= n < 0x8000_0000
    ensures s == Sum(f, n) % 0x1_0000_0000
  {
    InWord(Sum(f, n));
    hide Sum, Wrap, Rem;
    s := Nothing(f);
    var j: nat := 0;
    RemBelow(n, 0);
    SumOfNone(f, 0);
    var r := Rem(n - j, 5);
    if r == 4 { s, j := B(f, s, j); }
    if 3 <= r <= 4 { s, j := B(f, s, j); }
    if 2 <= r <= 4 { s, j := B(f, s, j); }
    if 1 <= r <= 4 { s, j := B(f, s, j); }
    var i: int := j;
    RemBelow(n, j);
    i := i + Rem(n - i, 5);
    if n < 0 { SumOfNone(f, n); }
    while i < n
      invariant n < 0 ==> n <= i && s == Wrap(Sum(f, n))
      invariant n >= 0 ==> 0 <= i <= n && (n - i) % 5 == 0 && s == Wrap(Sum(f, i))
    {
      s, i := B(f, s, i);
      s, i := B(f, s, i);
      s, i := B(f, s, i);
      s, i := B(f, s, i);
      s, i := B(f, s, i);
    }
  }

  lemma RoundUp16Bounds(n: int)
    ensures RoundUp16(n) % 16 == 0 && (n > 0 ==> n <= RoundUp16(n) < n + 16)
    ensures RoundUp16(n) == (if n < 0 then 0 else n) <==> n <= 0 || n % 16 == 0
  {
  }

  /** A term that is 1 at n only. */
  function At(n: int): Term { j => if j == n then 1 else 0 }

  lemma {:induction false} SumAt(n: int, m: int)
    requires n >= 0
    ensures Sum(At(n), m) == if m > n then 1 else 0
    decreases if m < 0 then 0 else m
  {
    if m > 0 { SumAt(n, m - 1); }
  }

  /** The 16-way forms sum the first n terms, as the 5-way form does, whatever the terms are, exactly
      when n is a multiple of 16 or not positive. */
  lemma RoundUp16Exact(n: int)
    ensures (forall f: Term :: Sum(f, RoundUp16(n)) % 0x1_0000_0000 == Sum(f, n) % 0x1_0000_0000)
       <==> n <= 0 || n % 16 == 0
  {
    hide RoundUp16;
    RoundUp16Bounds(n);
    if n <= 0 || n % 16 == 0 {
      assert forall f: Term :: Sum(f, RoundUp16(n)) == Sum(f, n);
    } else {
      SumAt(n, RoundUp16(n));
      SumAt(n, n);
      assert Sum(At(n), RoundUp16(n)) % 0x1_0000_0000 != Sum(At(n), n) % 0x1_0000_0000;
    }
  }

  // ---------- the loop-carried sum ----------

  function WrapLong(x: int): nat { x % LONG }

  /** 1 + 0 + 1 + ... + (i - 1) */
  function Carried(i: nat): nat {
    if i == 0 then 1 else Carried(i - 1) + (i - 1)
  }

  lemma {:induction false} CarriedClosed(i: nat)
    ensures 2 * Carried(i) == 2 + i * (i - 1)
  {
    if i > 0 {
      CarriedClosed(i - 1);
      assert i * (i - 1) == (i - 1) * (i - 2) + 2 * (i - 1);
    }
  }

  /** s += i; i++; */
  method Step(s: nat, i: nat) returns (s': nat, i': nat)
    requires s == WrapLong(Carried(i))
    ensures i' == i + 1 && s' == WrapLong(Carried(i'))
  {
    s', i' := WrapLong(s + i), i + 1;
  }

  // tiny-loop-carried.c
  method LoopCarried(n: int) returns (s: nat)
    requires -0x8000_0000_0000_0000 <= 8 * n < 0x8000_0000_0000_0000
    ensures s == WrapLong(Carried(if n < 0 then 0 else 8 * n))
  {
    CarriedStart();
    hide Carried, WrapLong;
    s := 1;
    var i: nat := 0;
    while i < 8 * n
      invariant s == WrapLong(Carried(i)) && (i == 0 || i <= 8 * n)
    {
      s, i := Step(s, i);
    }
  }

  lemma CarriedStart()
    ensures WrapLong(Carried(0)) == 1
  {
  }

  // tiny-loop-carried-manual-8.c
  method LoopCarried8(n: int) returns (s: nat)
    requires -0x8000_0000_0000_0000 <= 8 * n < 0x8000_0000_0000_0000
    ensures s == WrapLong(Carried(if n < 0 then 0 else 8 * n))
  {
    CarriedStart();
    hide Carried, WrapLong;
    s := 1;
    var i: nat := 0;
    while i < 8 * n
      invariant s == WrapLong(Carried(i)) && (i == 0 || i <= 8 * n) && i % 8 == 0
    {
      s, i := Step(s, i);
      s, i := Step(s, i);
      s, i := Step(s, i);
      s, i := Step(s, i);
      s, i := Step(s, i);
      s, i := Step(s, i);
      s, i := Step(s, i);
      s, i := Step(s, i);
    }
  }

  lemma HalfOf(c: int, p: int)
    requires 2 * c == 2 + p
    ensures c == 1 + p / 2
  {
  }

  /** What both forms compute: 1 + 8n(8n - 1)/2 modulo 2^64, and 1 if n is negative. */
  lemma CarriedResult(n: int)
    ensures WrapLong(Carried(0)) == 1
    ensures n >= 0 ==> WrapLong(Carried(8 * n)) == (1 + 8 * n * (8 * n - 1) / 2) % 0x1_0000_0000_0000_0000
  {
    CarriedStart();
    hide Carried;
    if n >= 0 {
      CarriedClosed(8 * n);
      HalfOf(Carried(8 * n), 8 * n * (8 * n - 1));
    }
  }
}
