/** Which lines an access of several bytes visits (pin-tools/dcache.H). */
module CacheLines {
  import opened Bits
  import opened Fifo

  const ADDRESSES: nat := 0x1_0000_0000_0000_0000

  /** The end of the access, in 64-bit arithmetic. */
  function High(addr: nat, size: nat): (h: nat)
    ensures h < ADDRESSES
    ensures addr + size < ADDRESSES ==> h == addr + size
    ensures ADDRESSES <= addr + size < 2 * ADDRESSES ==> h == addr + size - ADDRESSES
  {
    (addr + size) % ADDRESSES
  }

  /** Lines from `n` on while they start below `high`. */
  function Upto(ls: nat, n: nat, high: nat): seq<nat>
    requires ls > 0
    decreases high - n * ls
  {
    if n * ls >= high then [] else assert (n + 1) * ls == n * ls + ls; [n] + Upto(ls, n + 1, high)
  }

  /** The line after `n`; the last line of the address space is followed by line 0. */
  function After(ls: nat, n: nat): nat {
    if (n + 1) * ls == ADDRESSES then 0 else n + 1
  }

  /** The lines that the loop of `Access` probes, when it ends. */
  function Walk(ls: nat, addr: nat, size: nat): seq<nat>
    requires ls > 0
  {
    [Div(addr, ls)] + Upto(ls, After(ls, Div(addr, ls)), High(addr, size))
  }

  /** A line size the simulator accepts. */
  ghost predicate LineSize(ls: nat) {
    ls < 0x1_0000_0000 && PowerOf2(ls)
  }

  lemma LineCount(ls: nat) returns (t: nat)
    requires LineSize(ls)
    ensures ls > 0 && t * ls == ADDRESSES
  {
    var k: nat :| ls == Pow2(k);
    if k > 64 { Pow2Grows(64, k); }
    Words();
    Pow2Adds(64 - k, k);
    t := Pow2(64 - k);
  }

  /** An address and its line. */
  lemma LineOf(ls: nat, a: nat)
    requires ls > 0
    ensures Div(a, ls) * ls <= a < (Div(a, ls) + 1) * ls
  {
  }

  /** The loop's step: round down with the mask, add the line size, wrap around. */
  function NextAddr(ls: nat, a: nat): nat
    requires 0 < ls <= ADDRESSES
  {
    (And(a, ADDRESSES - 1 - (ls - 1)) + ls) % ADDRESSES
  }

  lemma RoundDown(ls: nat, a: nat)
    requires LineSize(ls) && a < ADDRESSES
    ensures 0 < ls <= ADDRESSES && And(a, ADDRESSES - 1 - (ls - 1)) == Div(a, ls) * ls
  {
    hide And;
    var k: nat :| ls == Pow2(k);
    if k > 64 { Pow2Grows(64, k); }
    Words();
    AndHighMask(64, a, k);
  }

  lemma NextAddrIs(ls: nat, a: nat)
    requires LineSize(ls) && a < ADDRESSES
    ensures 0 < ls <= ADDRESSES && NextAddr(ls, a) == After(ls, Div(a, ls)) * ls < ADDRESSES
  {
    RoundDown(ls, a);
    var t := LineCount(ls);
    hide And, LineSize;
    LineOf(ls, a);
    var n := Div(a, ls);
    hide Div;
    Fits(ls, n, a, t);
    assert (n + 1) * ls == n * ls + ls;
  }

  lemma Fits(ls: nat, n: nat, a: nat, t: nat)
    requires ls > 0 && n * ls <= a < t * ls
    ensures (n + 1) * ls <= t * ls
    ensures (n + 1) * ls != t * ls ==> (n + 2) * ls <= t * ls
  {
    MulBig(ls, t - n);
    MulBig(ls, t - n - 1);
    assert ls * (t - n) == t * ls - n * ls;
    assert ls * (t - n - 1) == t * ls - n * ls - ls;
    assert (n + 1) * ls == n * ls + ls && (n + 2) * ls == n * ls + 2 * ls;
  }

  /** The k-th address the loop looks at. */
  function Visit(ls: nat, addr: nat, k: nat): nat
    requires 0 < ls <= ADDRESSES
  {
    if k == 0 then addr else NextAddr(ls, Visit(ls, addr, k - 1))
  }

  /** The loop, which tests at the bottom, ends after n rounds. */
  ghost predicate StopsAfter(ls: nat, addr: nat, size: nat, n: nat)
    requires 0 < ls <= ADDRESSES
  {
    n > 0 && Visit(ls, addr, n) >= High(addr, size)
    && forall k :: 0 < k < n ==> Visit(ls, addr, k) < High(addr, size)
  }

  /** Does line `l` contain a byte of [addr, addr + size)? */
  predicate Overlaps(ls: nat, addr: nat, size: nat, l: nat) {
    l * ls < addr + size && addr < (l + 1) * ls
  }

  /** The lines overlapping [addr, addr + size), in order. */
  function Covering(ls: nat, addr: nat, size: nat): (r: seq<nat>)
    requires ls > 0 && size > 0
  {
    var lo, hi := Div(addr, ls), Div(addr + size - 1, ls);
    Lines(lo, if lo <= hi then hi - lo + 1 else 0)
  }

  lemma CoveringExact(ls: nat, addr: nat, size: nat, l: nat)
    requires ls > 0 && size > 0
    ensures l in Covering(ls, addr, size) <==> Overlaps(ls, addr, size, l)
    ensures Div(addr, ls) <= Div(addr + size - 1, ls)
  {
    var lo, hi := Div(addr, ls), Div(addr + size - 1, ls);
    LineOf(ls, addr);
    LineOf(ls, addr + size - 1);
    Order(ls, lo, hi + 1, addr);
    Order(ls, l, hi + 1, l * ls);
    Order(ls, lo, l + 1, addr);
    if lo <= l <= hi {
      assert l == Lines(lo, hi - lo + 1)[l - lo];
      Monotone(ls, l, hi);
      Monotone(ls, lo + 1, l + 1);
    }
  }

  lemma Order(ls: nat, a: nat, b: nat, x: nat)
    requires ls > 0
    ensures a * ls <= x < b * ls ==> a < b
  {
    MulBig(ls, a - b + 1);
    assert ls * (a - b + 1) == a * ls - b * ls + ls;
    if a >= b { Monotone(ls, b, a); }
  }

  lemma Monotone(ls: nat, a: nat, b: nat)
    requires a <= b
    ensures a * ls <= b * ls
  {
  }

  /** Away from the top line of the address space the walk is exactly the overlapping lines. */
  lemma WalkCoversBelow(ls: nat, addr: nat, size: nat)
    requires LineSize(ls) && size > 0 && addr + size + ls <= ADDRESSES
    ensures ls > 0 && Walk(ls, addr, size) == Covering(ls, addr, size)
  {
    var t := LineCount(ls);
    var lo, hi := Div(addr, ls), Div(addr + size - 1, ls);
    CoveringExact(ls, addr, size, lo);
    LineOf(ls, addr);
    LineOf(ls, addr + size - 1);
    assert (lo + 1) * ls == lo * ls + ls;
    UptoLines(ls, lo + 1, hi, addr + size);
  }

  lemma {:induction false} UptoLines(ls: nat, n: nat, hi: nat, high: nat)
    requires ls > 0 && n <= hi + 1 && hi * ls < high <= (hi + 1) * ls
    ensures Upto(ls, n, high) == Lines(n, hi + 1 - n)
    decreases hi + 1 - n
  {
    if n <= hi {
      Monotone(ls, n, hi);
      UptoLines(ls, n + 1, hi, high);
      assert Lines(n, hi + 1 - n) == [n] + Lines(n + 1, hi - n);
    }
  }

  lemma Multiple(ls: nat, n: nat, t: nat)
    requires n * ls < t * ls
    ensures n * ls + ls <= t * ls
  {
    MulBig(ls, t - n);
    assert ls * (t - n) == t * ls - n * ls;
    MulBig(ls, n - t);
    assert ls * (n - t) == n * ls - t * ls;
  }

  /** Every address after the first starts a line. */
  lemma VisitStartsLine(ls: nat, addr: nat, k: nat)
    requires LineSize(ls) && addr < ADDRESSES && k > 0
    ensures 0 < ls <= ADDRESSES && Visit(ls, addr, k) + ls <= ADDRESSES
  {
    var t := LineCount(ls);
    MulBig(ls, t);
    VisitBelow(ls, addr, k - 1);
    var a := Visit(ls, addr, k - 1);
    NextAddrIs(ls, a);
    hide LineSize, And, NextAddr, Div;
    Multiple(ls, After(ls, Div(a, ls)), t);
  }

  lemma {:induction false} VisitBelow(ls: nat, addr: nat, k: nat)
    requires 0 < ls <= ADDRESSES && addr < ADDRESSES
    ensures Visit(ls, addr, k) < ADDRESSES
  {
    hide And;
  }

  /** An access that ends inside the top line of the address space never ends: the loop wraps
      around to line 0 and every address it then looks at is below the end. */
  lemma TopLineNeverStops(ls: nat, addr: nat, size: nat, n: nat)
    requires LineSize(ls) && addr < ADDRESSES && High(addr, size) + ls > ADDRESSES
    ensures 0 < ls <= ADDRESSES && !StopsAfter(ls, addr, size, n)
  {
    var t := LineCount(ls);
    MulBig(ls, t);
    if n > 0 { VisitStartsLine(ls, addr, n); }
  }

  lemma NextLine(ls: nat, n: nat)
    requires LineSize(ls) && n * ls + ls < ADDRESSES
    ensures 0 < ls <= ADDRESSES && NextAddr(ls, n * ls) == (n + 1) * ls
  {
    DivModUnique(n * ls, ls, n, 0);
    NextAddrIs(ls, n * ls);
    assert (n + 1) * ls == n * ls + ls;
  }

  /** From a line start on, the loop visits the lines of `Upto` and stops there. */
  lemma {:induction false} UptoVisits(ls: nat, addr: nat, k: nat, n: nat, high: nat, i: nat)
    requires LineSize(ls) && 0 < ls <= ADDRESSES && high + ls <= ADDRESSES && Visit(ls, addr, k) == n * ls
    requires i <= |Upto(ls, n, high)|
    ensures Visit(ls, addr, k + i) == (n + i) * ls
    ensures i < |Upto(ls, n, high)| <==> (n + i) * ls < high
    ensures i < |Upto(ls, n, high)| ==> Upto(ls, n, high)[i] == n + i
    decreases i
  {
    hide NextAddr, LineSize;
    if i > 0 {
      NextLine(ls, n);
      UptoVisits(ls, addr, k + 1, n + 1, high, i - 1);
      assert k + i == (k + 1) + (i - 1) && n + i == (n + 1) + (i - 1);
    }
  }

  /** The lines the loop probes in its first n rounds. */
  function Visited(ls: nat, addr: nat, n: nat): seq<nat>
    requires 0 < ls <= ADDRESSES
  {
    seq(n, k requires 0 <= k < n => Div(Visit(ls, addr, k), ls))
  }

  /** The loop ends after exactly the rounds of `Walk`, unless it ends inside the top line. */
  lemma WalkIsVisits(ls: nat, addr: nat, size: nat)
    requires LineSize(ls) && addr < ADDRESSES && High(addr, size) + ls <= ADDRESSES
    ensures 0 < ls <= ADDRESSES
    ensures StopsAfter(ls, addr, size, |Walk(ls, addr, size)|)
    ensures Visited(ls, addr, |Walk(ls, addr, size)|) == Walk(ls, addr, size)
  {
    NextAddrIs(ls, addr);
    hide LineSize, NextAddr, High, After, Upto, Div;
    var n, w := After(ls, Div(addr, ls)), Walk(ls, addr, size);
    assert Visit(ls, addr, 1) == NextAddr(ls, Visit(ls, addr, 0));
    UptoVisits(ls, addr, 1, n, High(addr, size), |w| - 1);
    hide Visit;
    forall k | 0 < k < |w| ensures Visit(ls, addr, k) < High(addr, size) && Div(Visit(ls, addr, k), ls) == w[k] {
      var i := k - 1;
      UptoVisits(ls, addr, 1, n, High(addr, size), i);
      LineStart(ls, n + i);
    }
    assert Visit(ls, addr, 0) == addr by { VisitFirst(ls, addr); }
  }

  lemma VisitFirst(ls: nat, addr: nat)
    requires 0 < ls <= ADDRESSES
    ensures Visit(ls, addr, 0) == addr
  {
  }

  lemma LineStart(ls: nat, n: nat)
    requires ls > 0
    ensures Div(n * ls, ls) == n
  {
    DivModUnique(n * ls, ls, n, 0);
  }

  /** The access stays below the top line of the address space, or is the end of that line. */
  predicate Regular(ls: nat, addr: nat, size: nat) {
    addr + size + ls <= ADDRESSES || (addr + size == ADDRESSES && addr + ls >= ADDRESSES)
  }

  /** The walk of a regular access is exactly the overlapping lines, in order. */
  lemma WalkCovers(ls: nat, addr: nat, size: nat)
    requires LineSize(ls) && size > 0 && Regular(ls, addr, size)
    ensures ls > 0 && Walk(ls, addr, size) == Covering(ls, addr, size)
  {
    if addr + size + ls <= ADDRESSES {
      WalkCoversBelow(ls, addr, size);
    } else {
      var t := LineCount(ls);
      TopEnd(ls, addr, size);
      assert Upto(ls, After(ls, Div(addr, ls)), 0) == [];
    }
  }

  /** For every access of at least one byte inside the address space: the loop ends having probed
      exactly the overlapping lines if and only if the access is regular. */
  lemma AccessExact(ls: nat, addr: nat, size: nat)
    requires LineSize(ls) && 0 < ls <= ADDRESSES && addr < ADDRESSES && size > 0 && addr + size <= ADDRESSES
    ensures (exists n :: StopsAfter(ls, addr, size, n) && Visited(ls, addr, n) == Covering(ls, addr, size))
       <==> Regular(ls, addr, size)
  {
    var w, c := Walk(ls, addr, size), Covering(ls, addr, size);
    if Regular(ls, addr, size) {
      WalkIsVisits(ls, addr, size);
      WalkCovers(ls, addr, size);
    } else if addr + size < ADDRESSES {
      forall n: nat ensures !StopsAfter(ls, addr, size, n) { TopLineNeverStops(ls, addr, size, n); }
    } else {
      TopEnd(ls, addr, size);
      forall n: nat | StopsAfter(ls, addr, size, n) ensures n == 1 { StopsAtOnce(ls, addr, size, n); }
    }
  }

  lemma StopsAtOnce(ls: nat, addr: nat, size: nat, n: nat)
    requires 0 < ls <= ADDRESSES && StopsAfter(ls, addr, size, n) && High(addr, size) == 0
    ensures n == 1
  {
    assert Visit(ls, addr, 1) >= 0;
  }

  /** Up to the very end of the address space there is one line exactly from its last line start on. */
  lemma TopEnd(ls: nat, addr: nat, size: nat)
    requires LineSize(ls) && ls > 0 && size > 0 && addr + size == ADDRESSES
    ensures Div(addr, ls) == Div(addr + size - 1, ls) <==> addr + ls >= ADDRESSES
    ensures |Covering(ls, addr, size)| == 1 <==> addr + ls >= ADDRESSES
    ensures Covering(ls, addr, size)[0] == Div(addr, ls)
  {
    var t := LineCount(ls);
    var lo, hi := Div(addr, ls), Div(addr + size - 1, ls);
    CoveringExact(ls, addr, size, lo);
    LineOf(ls, addr);
    LineOf(ls, addr + size - 1);
    assert (t - 1) * ls == t * ls - ls;
    DivModUnique(addr + size - 1, ls, t - 1, ls - 1);
    if lo == hi {
      assert addr >= (t - 1) * ls;
    } else if addr + ls >= ADDRESSES {
      DivModUnique(addr, ls, t - 1, addr - (t - 1) * ls);
    }
  }
}
