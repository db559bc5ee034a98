/** Bit operations of the cache simulator on unsigned words, as recursion over binary digits
    (pin-tools/dcache.H). */
module Bits {
  function Pow2(k: nat): (p: nat)
    ensures p > 0
  {
    if k == 0 then 1 else 2 * Pow2(k - 1)
  }

  /** Bitwise and. */
  function And(x: nat, y: nat): nat {
    if x == 0 || y == 0 then 0 else (x % 2) * (y % 2) + 2 * And(x / 2, y / 2)
  }

  function Div(x: nat, m: nat): nat
    requires m > 0
  {
    x / m
  }

  function Shr(x: nat, k: nat): nat { Div(x, Pow2(k)) }

  /** Wrap-around in a word of `w` bits. */
  function Wrap(w: nat, x: int): (r: nat) { x % Pow2(w) }

  /** Complement in a word of `w` bits. */
  function Not(w: nat, x: nat): nat
    requires x < Pow2(w)
  {
    Pow2(w) - 1 - x
  }

  // ---------- arithmetic ----------

  lemma {:induction false} Pow2Adds(a: nat, b: nat)
    ensures Pow2(a + b) == Pow2(a) * Pow2(b)
  {
    if a > 0 {
      Pow2Adds(a - 1, b);
      Doubled(Pow2(a - 1), Pow2(b));
    }
  }

  lemma {:induction false} Pow2Grows(a: nat, b: nat)
    requires a < b
    ensures 2 * Pow2(a) <= Pow2(b)
  {
    if a + 1 < b { Pow2Grows(a, b - 1); }
  }

  lemma Doubled(p: int, a: int)
    ensures (2 * p) * a == 2 * (p * a)
  {
  }

  lemma MulBig(m: int, d: int)
    requires m >= 0
    ensures d >= 1 ==> m * d >= m
    ensures d <= -1 ==> m * d <= -m
  {
  }

  lemma DivModUnique(x: nat, m: nat, q: nat, r: nat)
    requires r < m && x == m * q + r
    ensures x % m == r && x / m == q
  {
    var d := x / m - q;
    assert m * d == m * (x / m) - m * q;
    assert x == m * (x / m) + x % m;
    MulBig(m, d);
  }

  lemma Nested(x: nat, a: nat, b: nat, y: nat, r: nat, q: nat, s: nat)
    requires x == a * y + r && r < a && y == b * q + s && s < b
    ensures x == (a * b) * q + (a * s + r) && a * s + r < a * b
  {
    assert a * (b * q) == (a * b) * q;
    MulBig(a, b - s);
    assert a * (b - s) == a * b - a * s;
  }

  lemma DivDiv(x: nat, a: nat, b: nat)
    requires a > 0 && b > 0
    ensures a * b > 0 && x / (a * b) == x / a / b && x % (a * b) == a * ((x / a) % b) + x % a
  {
    var y, r := x / a, x % a;
    var q, s := y / b, y % b;
    Nested(x, a, b, y, r, q, s);
    DivModUnique(x, a * b, q, a * s + r);
  }

  lemma DivBelow(x: nat, l: nat, h: nat)
    requires l > 0 && x < l * h
    ensures x / l < h
  {
    var d := x / l - h;
    assert l * d == l * (x / l) - l * h;
    MulBig(l, d);
  }

  // ---------- masks ----------

  lemma AndStep(x: nat, y: nat)
    ensures And(x, y) == (x % 2) * (y % 2) + 2 * And(x / 2, y / 2)
  {
  }

  /** Masking with 2^k - 1 is the remainder by 2^k. */
  lemma {:induction false} AndLowMask(x: nat, k: nat)
    ensures And(x, Pow2(k) - 1) == x % Pow2(k)
    decreases k
  {
    if k > 0 {
      hide And;
      var p := Pow2(k - 1);
      AndLowMask(x / 2, k - 1);
      AndStep(x, 2 * p - 1);
      assert (2 * p - 1) / 2 == p - 1;
      DivDiv(x, 2, p);
    }
  }

  /** A mask y = m * p with p = 2^k ignores the k low bits. */
  lemma {:induction false} AndShifted(x: nat, y: nat, m: nat, k: nat, p: nat)
    requires p == Pow2(k) && y == m * p
    ensures And(x, y) == p * And(Shr(x, k), m)
    decreases k
  {
    hide And;
    if k > 0 {
      var h := Pow2(k - 1);
      assert m * p == 2 * (m * h);
      AndStep(x, y);
      AndShifted(x / 2, y / 2, m, k - 1, h);
      ShrStep(x, k);
      hide Shr;
      Doubled(h, And(Shr(x, k), m));
    }
  }

  lemma ShrStep(x: nat, k: nat)
    requires k > 0
    ensures Shr(x, k) == Shr(x / 2, k - 1)
  {
    DivDiv(x, 2, Pow2(k - 1));
  }

  /** Masking with the complement of 2^k - 1 rounds down to a multiple of 2^k. */
  lemma AndHighMask(w: nat, x: nat, k: nat)
    requires x < Pow2(w) && k <= w
    ensures Pow2(k) <= Pow2(w)
    ensures And(x, Not(w, Pow2(k) - 1)) == x - x % Pow2(k)
  {
    var l, h := Pow2(k), Pow2(w - k);
    Pow2Adds(k, w - k);
    HighMask(w, x, k, l, h);
  }

  lemma HighMask(w: nat, x: nat, k: nat, l: nat, h: nat)
    requires l == Pow2(k) && k <= w && h == Pow2(w - k) && Pow2(w) == l * h && x < l * h
    ensures l <= Pow2(w) && And(x, Not(w, l - 1)) == x - x % l
  {
    MulBig(l, h);
    ShrBelow(x, k, h);
    hide And, Pow2, Shr;
    assert Not(w, l - 1) == (h - 1) * l;
    AndShifted(x, Not(w, l - 1), h - 1, k, l);
    AndLowMask(Shr(x, k), w - k);
    DivModUnique(Shr(x, k), h, 0, Shr(x, k));
  }

  lemma ShrBelow(x: nat, k: nat, h: nat)
    requires x < Pow2(k) * h
    ensures Shr(x, k) < h && x == Pow2(k) * Shr(x, k) + x % Pow2(k)
    ensures Shr(x, k) == 0 <==> x < Pow2(k)
  {
    hide Pow2;
    var p := Pow2(k);
    DivBelow(x, p, h);
    MulBig(p, x / p);
  }

  // ---------- powers of two ----------

  /** The test of the source, on 32-bit words. */
  predicate IsPower2(n: nat) {
    And(n, Wrap(32, n - 1)) == 0
  }

  lemma {:induction false} AndSelf(x: nat)
    ensures And(x, x) == x
  {
    if x != 0 { AndSelf(x / 2); }
  }

  ghost predicate PowerOf2(n: nat) {
    exists k: nat :: n == Pow2(k)
  }

  lemma PowerOf2Half(n: nat)
    requires n > 0 && n % 2 == 0
    ensures PowerOf2(n) <==> PowerOf2(n / 2)
  {
    if k: nat :| n == Pow2(k) { assert n / 2 == Pow2(k - 1); }
    if k: nat :| n / 2 == Pow2(k) { assert n == Pow2(k + 1); }
  }

  lemma {:induction false} AndPredecessor(n: nat)
    requires n > 0
    ensures And(n, n - 1) == 0 <==> PowerOf2(n)
  {
    var m := n / 2;
    if n == 1 {
      assert n == Pow2(0);
    } else {
      AndStep(n, n - 1);
      if n % 2 == 1 {
        AndSelf(m);
        OddIsNoPower(n);
      } else {
        assert (n - 1) / 2 == m - 1;
        AndPredecessor(m);
        PowerOf2Half(n);
      }
    }
  }

  lemma OddIsNoPower(n: nat)
    requires n > 1 && n % 2 == 1
    ensures !PowerOf2(n)
  {
    forall k: nat ensures n != Pow2(k) {}
  }

  /** The test accepts the powers of two, and zero. */
  lemma IsPower2Exact(n: nat)
    requires n < Pow2(32)
    ensures IsPower2(n) <==> n == 0 || PowerOf2(n)
  {
    hide Pow2;
    if n > 0 {
      hide And;
      AndPredecessor(n);
      DivModUnique(n - 1, Pow2(32), 0, n - 1);
    }
  }

  lemma Words()
    ensures Pow2(4) == 0x10 && Pow2(8) == 0x100 && Pow2(16) == 0x1_0000
    ensures Pow2(32) == 0x1_0000_0000 && Pow2(64) == 0x1_0000_0000_0000_0000
  {
    assert Pow2(4) == 0x10;
    Pow2Adds(4, 4);
    Pow2Adds(8, 8);
    Pow2Adds(16, 16);
    Pow2Adds(32, 32);
  }

  /** Does `n`, below 2^(2k), have a bit set in its upper half?  The mask is the upper half. */
  lemma HasHighBits(n: nat, k: nat, mask: nat)
    requires n < Pow2(k) * Pow2(k) && mask == (Pow2(k) - 1) * Pow2(k)
    ensures And(n, mask) != 0 <==> n >= Pow2(k)
    ensures Shr(n, k) < Pow2(k) && (Shr(n, k) == 0 <==> n < Pow2(k))
  {
    ShrBelow(n, k, Pow2(k));
    hide And, Pow2, Shr;
    var p := Pow2(k);
    AndShifted(n, mask, p - 1, k, p);
    AndLowMask(Shr(n, k), k);
    DivModUnique(Shr(n, k), p, 0, Shr(n, k));
    MulBig(p, Shr(n, k));
  }

  /** One step of the search: drop the lower half of a word of 2k bits if the upper half is used. */
  method Halve(n: nat, p: nat, k: nat, mask: nat, ghost n0: nat) returns (n': nat, p': nat)
    requires 0 < n < Pow2(k) * Pow2(k) && mask == (Pow2(k) - 1) * Pow2(k)
    requires n == Shr(n0, p)
    ensures 0 < n' < Pow2(k)
    ensures n' == Shr(n0, p')
  {
    hide And, Pow2;
    HasHighBits(n, k, mask);
    n', p' := n, p;
    if And(n, mask) != 0 {
      n', p' := Shr(n, k), p + k;
      Pow2Adds(p, k);
      DivDiv(n0, Pow2(p), Pow2(k));
    }
  }

  /** The position of the highest bit set. */
  method FloorLog2(n: nat) returns (p: int)
    requires n < 0x1_0000_0000
    ensures n == 0 ==> p == -1
    ensures n > 0 ==> 0 <= p && Pow2(p) <= n < Pow2(p + 1)
  {
    if n == 0 { return -1; }
    Words();
    hide And;
    var m, q := n, 0;
    m, q := Halve(m, q, 16, 0xffff0000, n);
    m, q := Halve(m, q, 8, 0x0000ff00, n);
    m, q := Halve(m, q, 4, 0x000000f0, n);
    m, q := Halve(m, q, 2, 0x0000000c, n);
    HasHighBits(m, 1, 0x00000002);
    ghost var r := q;
    if And(m, 0x00000002) != 0 { q := q + 1; }
    ShrBetween(n, r, m);
    return q;
  }

  /** Knowing n >> r, which is below 4, gives the highest bit of n. */
  lemma ShrBetween(n: nat, r: nat, m: nat)
    requires m == Shr(n, r) && 0 < m < 4
    ensures m >= 2 ==> Pow2(r + 1) <= n < Pow2(r + 2)
    ensures m < 2 ==> Pow2(r) <= n < Pow2(r + 1)
  {
    var p := Pow2(r);
    assert n == p * m + n % p;
    assert m == 1 ==> p * m == p;
    assert m == 2 ==> p * m == 2 * p;
    assert m == 3 ==> p * m == 3 * p;
  }
}
