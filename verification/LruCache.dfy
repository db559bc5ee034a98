/** The cache simulator with least-recently-used replacement (archcloud/src/ArchLab/QDCache.py). */
module LruCache {

  // ---------- recency ----------

  function Without(s: seq<int>, x: int): seq<int> {
    if s == [] then []
    else
      var n := |s| - 1;
      Without(s[..n], x) + if s[n] == x then [] else [s[n]]
  }

  /** The different lines of a trace, by their last use, the most recent one last. */
  function Recency(t: seq<int>): seq<int> {
    if t == [] then [] else Without(Recency(t[..|t| - 1]), t[|t| - 1]) + [t[|t| - 1]]
  }

  function Top(s: seq<int>, k: nat): (r: seq<int>)
    ensures |r| <= k && |r| <= |s| && r == s[|s| - |r|..]
  {
    if |s| <= k then s else s[|s| - k..]
  }

  /** One access to a cache that holds up to `k` lines: a hit moves the line to the end, a miss
      drops the first line of a full cache. */
  function Access(c: seq<int>, x: int, k: nat): seq<int>
    requires k > 0
  {
    if x in c then Without(c, x) + [x]
    else if |c| >= k then c[1..] + [x]
    else c + [x]
  }

  function Contents(t: seq<int>, k: nat): seq<int>
    requires k > 0
  {
    if t == [] then [] else Access(Contents(t[..|t| - 1], k), t[|t| - 1], k)
  }

  ghost predicate Distinct(s: seq<int>) {
    forall i, j :: 0 <= i < j < |s| ==> s[i] != s[j]
  }

  lemma {:induction false} WithoutAbsent(s: seq<int>, x: int)
    requires x !in s
    ensures Without(s, x) == s
  {
    if s != [] { WithoutAbsent(s[..|s| - 1], x); }
  }

  lemma {:induction false} WithoutTail(a: seq<int>, b: seq<int>, x: int)
    requires x !in b
    ensures Without(a + b, x) == Without(a, x) + b
  {
    if b == [] {
      assert a + b == a;
    } else {
      var n := |b| - 1;
      assert (a + b)[..|a| + n] == a + b[..n];
      WithoutTail(a, b[..n], x);
      assert b == b[..n] + [b[n]];
    }
  }

  /** Taking out the one occurrence of `x`. */
  lemma WithoutSplit(a: seq<int>, x: int, b: seq<int>)
    requires x !in a && x !in b
    ensures Without(a + [x] + b, x) == a + b
  {
    hide Without;
    WithoutAbsent(a, x);
    WithoutPush(a, x);
    WithoutTail(a + [x], b, x);
  }

  lemma WithoutPush(a: seq<int>, x: int)
    ensures Without(a + [x], x) == Without(a, x)
  {
    assert (a + [x])[..|a|] == a;
  }

  lemma Split(s: seq<int>, x: int) returns (a: seq<int>, b: seq<int>)
    requires Distinct(s) && x in s
    ensures s == a + [x] + b && x !in a && x !in b && Distinct(a + b)
  {
    var p: nat :| p < |s| && s[p] == x;
    a, b := s[..p], s[p + 1..];
    assert forall i :: 0 <= i < |a + b| ==> (a + b)[i] == s[if i < p then i else i + 1];
  }

  lemma DistinctParts(a: seq<int>, x: int, b: seq<int>)
    requires Distinct(a + [x] + b)
    ensures Distinct(a) && Distinct(b) && x !in a && x !in b && forall y :: y in a ==> y !in b
  {
    var s := a + [x] + b;
    assert forall i :: 0 <= i < |a| ==> a[i] == s[i];
    assert forall i :: 0 <= i < |b| ==> b[i] == s[|a| + 1 + i];
    assert s[|a|] == x;
  }

  lemma WithoutDistinct(s: seq<int>, x: int)
    requires Distinct(s)
    ensures Distinct(Without(s, x) + [x])
    ensures forall y :: y in Without(s, x) + [x] <==> y in s || y == x
  {
    hide Without;
    if x in s {
      var a, b := Split(s, x);
      WithoutSplit(a, x, b);
    } else {
      WithoutAbsent(s, x);
    }
  }

  lemma {:induction false} RecencyDistinct(t: seq<int>)
    ensures Distinct(Recency(t))
    ensures forall y :: y in Recency(t) <==> y in t
  {
    if t != [] {
      hide Without, Distinct;
      var n := |t| - 1;
      RecencyDistinct(t[..n]);
      WithoutDistinct(Recency(t[..n]), t[n]);
      assert t == t[..n] + [t[n]];
    }
  }

  /** One access to the `k` most recent lines gives the `k` most recent lines. */
  lemma AccessTop(s: seq<int>, x: int, k: nat)
    requires Distinct(s) && k > 0
    ensures Access(Top(s, k), x, k) == Top(Without(s, x) + [x], k)
  {
    hide Without, Distinct, Top, Access;
    if x in s {
      var a, b := Split(s, x);
      WithoutSplit(a, x, b);
      if |b| < k { HitTop(a, x, b, k); } else { DeepTop(a, x, b, k); }
    } else {
      WithoutAbsent(s, x);
      NewTop(s, x, k);
    }
  }

  lemma TopConcat(a: seq<int>, b: seq<int>, k: nat)
    ensures |b| <= k ==> Top(a + b, k) == Top(a, k - |b|) + b
    ensures |b| >= k ==> Top(a + b, k) == Top(b, k)
    ensures |Top(b, k)| == if |b| >= k then k else |b|
    ensures forall y :: y in Top(b, k) ==> y in b
  {
  }

  lemma HitTop(a: seq<int>, x: int, b: seq<int>, k: nat)
    requires x !in a && x !in b && |b| < k
    ensures Access(Top(a + [x] + b, k), x, k) == Top(a + b + [x], k)
  {
    hide Without, Top;
    var a' := Top(a, k - 1 - |b|);
    TopConcat([], a, k - 1 - |b|);
    TopAround(a, b, x, k);
    WithoutSplit(a', x, b);
    assert x in a' + [x] + b;
  }

  lemma TopAround(a: seq<int>, b: seq<int>, x: int, k: nat)
    requires |b| < k
    ensures Top(a + [x] + b, k) == Top(a, k - 1 - |b|) + [x] + b
    ensures Top(a + b + [x], k) == Top(a, k - 1 - |b|) + b + [x]
  {
    hide *;
    Reassociate(a, [x], b);
    Reassociate(a, b, [x]);
    TopConcat(a, [x] + b, k);
    TopConcat(a, b + [x], k);
    Reassociate(Top(a, k - 1 - |b|), [x], b);
    Reassociate(Top(a, k - 1 - |b|), b, [x]);
  }

  lemma Reassociate(a: seq<int>, b: seq<int>, c: seq<int>)
    ensures a + b + c == a + (b + c)
  {
  }

  lemma DeepTop(a: seq<int>, x: int, b: seq<int>, k: nat)
    requires x !in b && |b| >= k > 0
    ensures Access(Top(a + [x] + b, k), x, k) == Top(a + b + [x], k)
  {
    TopConcat(a + [x], b, k);
    TopConcat(a, b + [x], k);
    TopDrop(b, x, k);
    hide Top;
    Reassociate(a, b, [x]);
  }

  lemma TopDrop(b: seq<int>, x: int, k: nat)
    requires |b| >= k > 0
    ensures |Top(b, k)| == k && Top(b + [x], k) == Top(b, k)[1..] + [x]
  {
  }

  lemma NewTop(s: seq<int>, x: int, k: nat)
    requires x !in s && k > 0
    ensures Access(Top(s, k), x, k) == Top(s + [x], k)
  {
    TopConcat([], s, k);
  }

  /** The cache holds exactly the `k` most recently used lines, in order of their last use. */
  lemma {:induction false} ContentsAreMostRecent(t: seq<int>, k: nat)
    requires k > 0
    ensures Contents(t, k) == Top(Recency(t), k)
  {
    if t != [] {
      hide Access, Top, Distinct, Without;
      var n := |t| - 1;
      ContentsAreMostRecent(t[..n], k);
      RecencyDistinct(t[..n]);
      AccessTop(Recency(t[..n]), t[n], k);
    }
  }

  ghost function Elements(s: seq<int>): set<int> {
    set y | y in s
  }

  /** The lines used after the last use of `x`. */
  function Since(t: seq<int>, x: int): set<int> {
    if t == [] || t[|t| - 1] == x then {} else Since(t[..|t| - 1], x) + {t[|t| - 1]}
  }

  /** Used since the last use of `x`: at a place from which on `x` does not occur. */
  lemma {:induction false} SinceExact(t: seq<int>, x: int, y: int)
    ensures y in Since(t, x) <==> exists k :: 0 <= k < |t| && t[k] == y && x !in t[k..]
  {
    if t != [] {
      var n := |t| - 1;
      SinceExact(t[..n], x, y);
      assert forall k :: 0 <= k <= n ==> t[k..] == t[..n][k..] + [t[n]];
      if k :| 0 <= k < n && t[k] == y && x !in t[..n][k..] && t[n] != x { assert t[k] == y && x !in t[k..]; }
      if k :| 0 <= k < |t| && t[k] == y && x !in t[k..] {
        assert t[n] in t[k..];
        if k < n { assert t[..n][k] == y && x !in t[..n][k..]; }
      }
    }
  }

  /** Moving another line to the end adds it to the lines after `x`. */
  lemma MoveToEnd(a: seq<int>, x: int, b: seq<int>, y: int) returns (a': seq<int>, b': seq<int>)
    requires Distinct(a + [x] + b) && y != x
    ensures Without(a + [x] + b, y) + [y] == a' + [x] + b' && Elements(b') == Elements(b) + {y}
    ensures Distinct(b') && x !in a' && x !in b'
  {
    hide Without;
    DistinctParts(a, x, b);
    if y in a {
      var a1, a2 := Split(a, y);
      assert a + [x] + b == a1 + [y] + (a2 + [x] + b);
      WithoutSplit(a1, y, a2 + [x] + b);
      a', b' := a1 + a2, b + [y];
    } else if y in b {
      var b1, b2 := Split(b, y);
      assert a + [x] + b == (a + [x] + b1) + [y] + b2;
      WithoutSplit(a + [x] + b1, y, b2);
      a', b' := a, b1 + b2 + [y];
    } else {
      WithoutAbsent(a + [x] + b, y);
      a', b' := a, b + [y];
    }
  }

  /** In order of recency, the lines after `x` are the ones used since. */
  lemma {:induction false} RecencySplit(t: seq<int>, x: int) returns (a: seq<int>, b: seq<int>)
    requires x in t
    ensures Recency(t) == a + [x] + b && Elements(b) == Since(t, x) && Distinct(b) && x !in a && x !in b
  {
    hide Without, Distinct;
    var n := |t| - 1;
    var r := Recency(t[..n]);
    RecencyDistinct(t[..n]);
    if t[n] == x {
      a, b := Without(r, x), [];
      WithoutAbsentAfter(r, x);
      NoneDistinct();
      assert Recency(t) == a + [x] + b;
    } else {
      assert t == t[..n] + [t[n]];
      a, b := RecencySplit(t[..n], x);
      a, b := MoveToEnd(a, x, b, t[n]);
    }
  }

  lemma NoneDistinct()
    ensures Distinct([])
  {
  }

  lemma {:induction false} WithoutAbsentAfter(s: seq<int>, x: int)
    ensures x !in Without(s, x)
  {
    if s != [] { WithoutAbsentAfter(s[..|s| - 1], x); }
  }

  lemma {:induction false} DistinctCount(s: seq<int>)
    requires Distinct(s)
    ensures |Elements(s)| == |s|
  {
    if s != [] {
      var n := |s| - 1;
      DistinctCount(s[..n]);
      assert Elements(s) == Elements(s[..n]) + {s[n]};
    }
  }

  /** A line hits exactly when it has been used and fewer than `k` other lines have been used since. */
  lemma HitExact(t: seq<int>, x: int, k: nat)
    requires k > 0
    ensures x in Contents(t, k) <==> x in t && |Since(t, x)| < k
  {
    hide Contents, Recency, Since, Distinct;
    ContentsAreMostRecent(t, k);
    RecencyDistinct(t);
    if x in t {
      var a, b := RecencySplit(t, x);
      DistinctCount(b);
      if |b| < k {
        assert Top(a + [x] + b, k) == Top(a, k - 1 - |b|) + [x] + b;
      } else {
        assert Top(a + [x] + b, k) == Top(b, k);
      }
    }
  }

  function Misses(t: seq<int>, k: nat): nat
    requires k > 0
  {
    if t == [] then 0
    else
      var n := |t| - 1;
      Misses(t[..n], k) + if t[n] in Contents(t[..n], k) then 0 else 1
  }

  /** The accesses at which the line was not in the cache. */
  ghost function MissesAt(t: seq<int>, k: nat): set<nat>
    requires k > 0
  {
    set i: nat | i < |t| && t[i] !in Contents(t[..i], k)
  }

  lemma {:induction false} MissesCount(t: seq<int>, k: nat)
    requires k > 0
    ensures Misses(t, k) == |MissesAt(t, k)|
  {
    if t != [] {
      hide Contents;
      var n := |t| - 1;
      MissesCount(t[..n], k);
      assert forall i :: 0 <= i <= n ==> t[..n][..i] == t[..i];
      var before, after := MissesAt(t[..n], k), MissesAt(t, k);
      assert after == if t[n] in Contents(t[..n], k) then before else before + {n};
    }
  }

  /** A larger cache contains what a smaller one contains ... */
  lemma Inclusion(t: seq<int>, k: nat, l: nat)
    requires 0 < k <= l
    ensures |Contents(t, k)| <= |Contents(t, l)|
    ensures Contents(t, k) == Contents(t, l)[|Contents(t, l)| - |Contents(t, k)|..]
  {
    ContentsAreMostRecent(t, k);
    ContentsAreMostRecent(t, l);
  }

  /** ... and so never misses more often. */
  lemma {:induction false} LargerMissesLess(t: seq<int>, k: nat, l: nat)
    requires 0 < k <= l
    ensures Misses(t, l) <= Misses(t, k)
  {
    if t != [] {
      LargerMissesLess(t[..|t| - 1], k, l);
      Inclusion(t[..|t| - 1], k, l);
    }
  }

  // ---------- the class ----------

  /** How many lines the cache holds before it evicts: one more than fit, as the code compares. */
  function Ways(capacity: nat, lineSize: nat): nat
    requires lineSize > 0
  {
    capacity / lineSize + 1
  }

  lemma FullExact(n: nat, capacity: nat, lineSize: nat)
    requires lineSize > 0
    ensures n * lineSize > capacity <==> n >= Ways(capacity, lineSize)
  {
    var q := capacity / lineSize;
    assert capacity == q * lineSize + capacity % lineSize;
    if n <= q { assert n * lineSize <= q * lineSize; }
    if n >= q + 1 { assert n * lineSize >= (q + 1) * lineSize == q * lineSize + lineSize; }
  }

  lemma SameElements(s: seq<int>, t: seq<int>)
    requires forall y :: y in s <==> y in t
    ensures Elements(s) == Elements(t)
  {
    var a, b := Elements(s), Elements(t);
    forall y ensures y in a <==> y in b { assert y in a <==> y in s; }
  }

  lemma LinesUsed(t: seq<int>)
    ensures Elements(Recency(t)) == Elements(t) && |Recency(t)| == |Elements(t)|
  {
    hide Recency, Distinct;
    var r := Recency(t);
    RecencyDistinct(t);
    DistinctCount(r);
    SameElements(r, t);
  }

  /** What the cache holds fits into its capacity exactly as long as no more different lines have
      been used than fit; after that it holds one line too many. */
  lemma CapacityExact(t: seq<int>, capacity: nat, lineSize: nat)
    requires lineSize > 0
    ensures var k := Ways(capacity, lineSize);
      && (|Contents(t, k)| * lineSize <= capacity <==> |Elements(t)| <= capacity / lineSize)
      && (|Elements(t)| > capacity / lineSize ==> |Contents(t, k)| == capacity / lineSize + 1)
  {
    hide Contents, Recency, Elements;
    var k := Ways(capacity, lineSize);
    ContentsAreMostRecent(t, k);
    LinesUsed(t);
    FullExact(|Contents(t, k)|, capacity, lineSize);
  }

  class Cache {
    const capacity: nat
    const lineSize: nat
    /** The keys of the ordered dictionary, oldest first. */
    var contents: seq<int>
    ghost var lines: seq<int>

    ghost predicate Valid()
      reads this
    {
      lineSize > 0 && contents == Contents(lines, Ways(capacity, lineSize))
    }

    constructor (kilobytes: nat, lineSize: nat)
      requires lineSize > 0
      ensures Valid() && lines == [] && this.capacity == 1024 * kilobytes && this.lineSize == lineSize
    {
      capacity, this.lineSize := 1024 * kilobytes, lineSize;
      contents, lines := [], [];
    }

    function LineAddr(x: int): (l: int)
      requires lineSize > 0
      ensures l <= x < l + lineSize && l % lineSize == 0
    {
      assert (x / lineSize * lineSize) % lineSize == 0 by { LineStart(x / lineSize, lineSize); }
      x / lineSize * lineSize
    }

    predicate IsHit(addr: int)
      requires lineSize > 0
      reads this
    {
      LineAddr(addr) in contents
    }

    /** An address hits exactly when its line has been used, and fewer other lines since than the
        cache holds. */
    lemma HitMeans(addr: int)
      requires Valid()
      ensures IsHit(addr) <==>
        LineAddr(addr) in lines && |Since(lines, LineAddr(addr))| < capacity / lineSize + 1
    {
      hide Contents, Since;
      HitExact(lines, LineAddr(addr), Ways(capacity, lineSize));
    }

    method AccessAddr(addr: int)
      requires Valid()
      modifies this
      ensures Valid() && lines == old(lines) + [LineAddr(addr)]
    {
      var line := LineAddr(addr);
      LineStart(addr / lineSize, lineSize);
      if IsHit(line) {
        contents := Without(contents, line);
      } else {
        FullExact(|contents|, capacity, lineSize);
        if |contents| * lineSize > capacity { contents := contents[1..]; }
      }
      contents := contents + [line];
      assert (lines + [line])[..|lines|] == lines;
      lines := lines + [line];
    }
  }

  lemma LineStart(q: int, lineSize: nat)
    requires lineSize > 0
    ensures (q * lineSize) % lineSize == 0 && q * lineSize / lineSize == q
  {
    var x := q * lineSize;
    var d := x / lineSize - q;
    assert x == lineSize * (x / lineSize) + x % lineSize;
    assert lineSize * d == -(x % lineSize);
    assert d >= 1 ==> lineSize * d >= lineSize;
    assert d <= -1 ==> lineSize * d <= 0 - lineSize;
  }
}
