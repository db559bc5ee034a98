/** The set-associative cache simulator (pin-tools/dcache.H). */
module SetCache {
  import opened Bits
  import opened Fifo
  import opened CacheLines

  datatype AccessType = Load | Store

  /** A set with round-robin replacement: an array of tags that is refilled downwards, in a circle. */
  class RoundRobin {
    const tags: array<nat>
    var tagsLastIndex: nat
    var nextReplaceIndex: nat

    ghost predicate Valid()
      reads this
    {
      nextReplaceIndex <= tagsLastIndex < tags.Length
    }

    /** Where the tag sits that is the k-th to be replaced. */
    function Slot(k: nat): (i: nat)
      requires Valid() && k <= tagsLastIndex
      reads this
      ensures i <= tagsLastIndex
    {
      if k <= nextReplaceIndex then nextReplaceIndex - k else nextReplaceIndex + tagsLastIndex + 1 - k
    }

    /** The tags in the order in which they will be replaced. */
    ghost function Queue(): (q: seq<nat>)
      requires Valid()
      reads this, tags
      ensures |q| == tagsLastIndex + 1
    {
      seq(tagsLastIndex + 1, k requires 0 <= k <= tagsLastIndex && Valid() reads this, tags => tags[Slot(k)])
    }

    constructor (maxAssociativity: nat)
      requires maxAssociativity > 0
      ensures Valid() && fresh(tags) && tags.Length == maxAssociativity
      ensures forall i :: 0 <= i < tags.Length ==> tags[i] == 0
    {
      tags := new nat[maxAssociativity](_ => 0);
      tagsLastIndex, nextReplaceIndex := maxAssociativity - 1, maxAssociativity - 1;
    }

    method SetAssociativity(associativity: nat)
      requires 0 < associativity <= tags.Length
      modifies this
      ensures Valid()
      ensures Queue() == seq(associativity, k requires 0 <= k < associativity => old(tags[..])[associativity - 1 - k])
    {
      tagsLastIndex := associativity - 1;
      nextReplaceIndex := tagsLastIndex;
    }

    method Find(tag: nat) returns (found: bool)
      requires Valid()
      ensures found <==> tag in Queue()
    {
      var index: int := tagsLastIndex;
      while index >= 0
        invariant -1 <= index <= tagsLastIndex
        invariant forall i :: index < i <= tagsLastIndex ==> tags[i] != tag
      {
        if tags[index] == tag {
          ghost var k := if index <= nextReplaceIndex then nextReplaceIndex - index
                         else nextReplaceIndex + tagsLastIndex + 1 - index;
          assert Queue()[k] == tag;
          return true;
        }
        index := index - 1;
      }
      return false;
    }

    /** The oldest tag goes, the new one becomes the youngest. */
    method Replace(tag: nat)
      requires Valid()
      modifies this`nextReplaceIndex, tags
      ensures Valid() && Queue() == old(Queue())[1..] + [tag]
    {
      var index := nextReplaceIndex;
      tags[index] := tag;
      nextReplaceIndex := if index == 0 then tagsLastIndex else index - 1;
    }
  }

  /** Whether a miss brings the line in: loads always do. */
  predicate Allocating(storeAllocate: bool, t: AccessType) { t == Load || storeAllocate }

  function Row(t: AccessType): nat { if t == Load then 0 else 1 }
  function Column(hit: bool): nat { if hit then 1 else 0 }

  class Cache {
    const lineSize: nat
    const associativity: nat
    const lineShift: nat
    const setIndexMask: nat
    const storeAllocate: bool
    const sets: seq<RoundRobin>
    const access: array2<nat>

    ghost const Footprint: set<object>

    static ghost predicate Separate(sets: seq<RoundRobin>, footprint: set<object>) {
      && (forall s :: s in sets ==> s in footprint && s.tags in footprint)
      && forall i, j :: 0 <= i < j < |sets| ==> sets[i] != sets[j] && sets[i].tags != sets[j].tags
    }

    function NumSets(): nat { setIndexMask + 1 }

    ghost predicate Geometry() {
      && LineSize(lineSize) && Pow2(lineShift) == lineSize
      && PowerOf2(NumSets()) && NumSets() <= |sets| && associativity > 0
      && access.Length0 == 2 && access.Length1 == 2 && access !in Footprint && this !in Footprint
    }

    ghost predicate Valid()
      reads Footprint
    {
      && Geometry() && Separate(sets, Footprint)
      && forall i :: 0 <= i < NumSets() ==> sets[i].Valid() && sets[i].tagsLastIndex + 1 == associativity
    }

    /** The cache as a FIFO queue of tags for each set. */
    ghost function Tags(): (qs: Queues)
      requires Valid()
      reads Footprint
      ensures Shape(qs, associativity) && |qs| == NumSets()
    {
      seq(NumSets(), i requires 0 <= i < NumSets() && Valid() reads Footprint => sets[i].Queue())
    }

    // ---------- counters ----------

    function Count(t: AccessType, hit: bool): nat
      requires Geometry()
      reads access
    {
      access[Row(t), Column(hit)]
    }

    /** One more access of this kind, and nothing else. */
    twostate predicate Counted(t: AccessType, hit: bool)
      requires Geometry()
      reads access
    {
      forall t', h' :: Count(t', h') == old(Count(t', h')) + if t' == t && h' == hit then 1 else 0
    }

    function SumAccess(hit: bool): nat
      requires Geometry()
      reads access
    {
      Count(Load, hit) + Count(Store, hit)
    }

    function Accesses(): nat
      requires Geometry()
      reads access
    {
      SumAccess(true) + SumAccess(false)
    }

    // ---------- construction ----------

    /** `maxSets` and `maxAssociativity` are the sizes fixed at compile time. */
    constructor (maxSets: nat, maxAssociativity: nat, storeAllocate: bool,
                 cacheSize: nat, lineSize: nat, associativity: nat)
      requires 0 < cacheSize && 0 < lineSize < 0x1_0000_0000 && 0 < associativity <= maxAssociativity
      requires associativity * lineSize < 0x1_0000_0000
      requires var n := Div(cacheSize, associativity * lineSize); 0 < n <= maxSets && n < 0x1_0000_0000 && IsPower2(n)
      requires IsPower2(lineSize)
      ensures Valid() && fresh(Footprint) && fresh(access)
      ensures this.lineSize == lineSize && this.associativity == associativity && this.storeAllocate == storeAllocate
      ensures NumSets() == Div(cacheSize, associativity * lineSize)
      ensures Tags() == Empty(NumSets(), associativity) && Accesses() == 0
    {
      hide IsPower2, Pow2, Div, LineSize, PowerOf2;
      var n := Div(cacheSize, associativity * lineSize);
      var shift := LineShift(lineSize, n);
      this.lineSize, this.associativity, this.storeAllocate := lineSize, associativity, storeAllocate;
      lineShift, setIndexMask := shift, n - 1;
      access := new nat[2, 2]((_, _) => 0);
      var ss, fp := MakeSets(maxSets, maxAssociativity, n, associativity);
      sets, Footprint := ss, fp;
    }

    static method LineShift(lineSize: nat, n: nat) returns (shift: nat)
      requires 0 < lineSize < 0x1_0000_0000 && IsPower2(lineSize)
      requires 0 < n < 0x1_0000_0000 && IsPower2(n)
      ensures LineSize(lineSize) && Pow2(shift) == lineSize && PowerOf2(n)
    {
      shift := FloorLog2(lineSize);
      ShiftIs(lineSize, shift);
      Words();
      IsPower2Exact(n);
    }

    /** All sets of the array, the first `n` of them in use. */
    static method MakeSets(maxSets: nat, maxAssociativity: nat, n: nat, associativity: nat)
      returns (ss: seq<RoundRobin>, ghost fp: set<object>)
      requires n <= maxSets && 0 < associativity <= maxAssociativity
      ensures |ss| == maxSets && fresh(fp) && Separate(ss, fp)
      ensures forall i :: 0 <= i < n ==> ss[i].Valid() && ss[i].Queue() == seq(associativity, _ => 0)
    {
      ss, fp := NewSets(maxSets, maxAssociativity);
      SetAssociativities(ss, n, associativity, fp);
    }

    /** The array of sets, each built for the largest associativity. */
    static method NewSets(maxSets: nat, maxAssociativity: nat) returns (ss: seq<RoundRobin>, ghost fp: set<object>)
      requires maxAssociativity > 0
      ensures |ss| == maxSets && fresh(fp) && Separate(ss, fp)
      ensures forall s :: s in ss ==>
                s.tags.Length == maxAssociativity && forall k :: 0 <= k < maxAssociativity ==> s.tags[k] == 0
    {
      ss, fp := [], {};
      for i := 0 to maxSets
        invariant |ss| == i && fresh(fp) && Separate(ss, fp)
        invariant forall s :: s in ss ==>
                s.tags.Length == maxAssociativity && forall k :: 0 <= k < maxAssociativity ==> s.tags[k] == 0
      {
        var s := new RoundRobin(maxAssociativity);
        ss, fp := ss + [s], fp + {s, s.tags};
      }
    }

    /** Cuts the first `n` sets down to the associativity wanted; they then hold tag 0 everywhere. */
    static method SetAssociativities(ss: seq<RoundRobin>, n: nat, associativity: nat, ghost fp: set<object>)
      requires n <= |ss| && associativity > 0 && Separate(ss, fp)
      requires forall s :: s in ss ==>
                 associativity <= s.tags.Length && forall k :: 0 <= k < associativity ==> s.tags[k] == 0
      modifies set s | s in ss
      ensures forall i :: 0 <= i < n ==> ss[i].Valid() && ss[i].Queue() == seq(associativity, _ => 0)
    {
      for i := 0 to n
        invariant forall s :: s in ss ==> forall k :: 0 <= k < associativity ==> s.tags[k] == 0
        invariant forall j :: 0 <= j < i ==> ss[j].Valid() && ss[j].Queue() == seq(associativity, _ => 0)
      {
        ss[i].SetAssociativity(associativity);
      }
    }

    // ---------- access ----------

    method SplitAddress(addr: nat) returns (tag: nat, setIndex: nat)
      requires Geometry()
      ensures tag == Div(addr, lineSize) && setIndex == SetOf(tag, NumSets())
    {
      tag := Shr(addr, lineShift);
      setIndex := And(tag, setIndexMask);
      MaskIsMod(tag, NumSets());
    }

    /** Look a line up, and bring it in on a miss if this access allocates. */
    method ProbeLine(addr: nat, accessType: AccessType) returns (hit: bool)
      requires Valid()
      modifies Footprint
      ensures Valid() && hit == Hit(old(Tags()), Div(addr, lineSize))
      ensures Tags() == Probe(old(Tags()), Div(addr, lineSize), accessType == Load || storeAllocate)
      ensures hit <==> Div(addr, lineSize) in old(Tags())[Div(addr, lineSize) % NumSets()]
      ensures accessType == Load || storeAllocate ==> Div(addr, lineSize) in Tags()[Div(addr, lineSize) % NumSets()]
      ensures hit || (accessType == Store && !storeAllocate) ==> Tags() == old(Tags())
    {
      var tag, setIndex := SplitAddress(addr);
      var s := sets[setIndex];
      hit := s.Find(tag);
      if !hit && Allocating(storeAllocate, accessType) { s.Replace(tag); }
    }

    method CountAccess(t: AccessType, hit: bool)
      requires Geometry()
      modifies access
      ensures Counted(t, hit)
      ensures SumAccess(hit) == old(SumAccess(hit)) + 1 && SumAccess(!hit) == old(SumAccess(!hit))
    {
      access[Row(t), Column(hit)] := access[Row(t), Column(hit)] + 1;
    }

    method AccessSingleLine(addr: nat, accessType: AccessType) returns (hit: bool)
      requires Valid() && addr < ADDRESSES
      modifies Footprint, access
      ensures Valid() && hit == Hit(old(Tags()), Div(addr, lineSize))
      ensures Counted(accessType, hit) && Accesses() == old(Accesses()) + 1
      ensures Tags() == Probe(old(Tags()), Div(addr, lineSize), accessType == Load || storeAllocate)
      ensures hit <==> Div(addr, lineSize) in old(Tags())[Div(addr, lineSize) % NumSets()]
      ensures accessType == Load || storeAllocate ==> Div(addr, lineSize) in Tags()[Div(addr, lineSize) % NumSets()]
      ensures hit || (accessType == Store && !storeAllocate) ==> Tags() == old(Tags())
    {
      hit := ProbeLine(addr, accessType);
      CountAccess(accessType, hit);
    }

    /** The loop of `Access`. */
    method ProbeLines(addr: nat, size: nat, accessType: AccessType) returns (allHit: bool)
      requires Valid() && addr < ADDRESSES && size < 0x1_0000_0000 && High(addr, size) + lineSize <= ADDRESSES
      modifies Footprint
      ensures Valid()
      ensures allHit == AllHit(old(Tags()), Walk(lineSize, addr, size), accessType == Load || storeAllocate)
      ensures Tags() == ProbeAll(old(Tags()), Walk(lineSize, addr, size), accessType == Load || storeAllocate)
    {
      WalkIsVisits(lineSize, addr, size);
      ghost var qs, lines, alloc := Tags(), Walk(lineSize, addr, size), accessType == Load || storeAllocate;
      hide *;
      var a, highAddr := addr, High(addr, size);
      var more := true;
      allHit := true;
      ghost var k := 0;
      ProbeNone(qs, alloc);
      VisitFirst(lineSize, addr);
      StopsWhen(lineSize, addr, size, |lines|, 0);
      while more
        invariant Valid() && 0 <= k <= |lines| && a == Visit(lineSize, addr, k)
        invariant more <==> k < |lines|
        invariant allHit == AllHit(qs, lines[..k], alloc) && Tags() == ProbeAll(qs, lines[..k], alloc)
        decreases |lines| - k
      {
        VisitedAt(lineSize, addr, |lines|, k);
        ProbeOneMore(qs, lines, k, alloc);
        var localHit := ProbeLine(a, accessType);
        allHit := allHit && localHit;
        VisitNext(lineSize, addr, k);
        StopsWhen(lineSize, addr, size, |lines|, k + 1);
        a := NextAddr(lineSize, a);
        more := a < highAddr;
        k := k + 1;
      }
      assert lines[..k] == lines;
    }

    /** Probes every line from `addr` on.  An access that ends inside the top line of the address
        space is excluded because the loop then does not end (CacheLines.TopLineNeverStops). */
    method Access(addr: nat, size: nat, accessType: AccessType) returns (allHit: bool)
      requires Valid() && addr < ADDRESSES && size < 0x1_0000_0000 && High(addr, size) + lineSize <= ADDRESSES
      modifies Footprint, access
      ensures Valid() && Counted(accessType, allHit) && Accesses() == old(Accesses()) + 1
      ensures allHit == AllHit(old(Tags()), Walk(lineSize, addr, size), accessType == Load || storeAllocate)
      ensures Tags() == ProbeAll(old(Tags()), Walk(lineSize, addr, size), accessType == Load || storeAllocate)
      ensures accessType == Store && !storeAllocate ==> Tags() == old(Tags())
      ensures accessType == Load || storeAllocate ==>
        size > 0 && Regular(lineSize, addr, size) && Span(lineSize, addr, size) <= NumSets() ==>
          forall l: nat :: Overlaps(lineSize, addr, size, l) ==> l in Tags()[l % NumSets()]
    {
      hide Walk, ProbeAll, AllHit, High, Regular, Overlaps;
      ghost var before := Tags();
      allHit := ProbeLines(addr, size, accessType);
      CountAccess(accessType, allHit);
      NothingLoaded(before, Walk(lineSize, addr, size));
      AccessLoads(before, associativity, lineSize, addr, size);
    }

    /** Any sequence of accesses, one after the other. */
    method Accessing(ops: seq<Op>) returns (hits: seq<bool>)
      requires Valid() && forall op :: op in ops ==> Ends(lineSize, op)
      modifies Footprint, access
      ensures Valid() && Tags() == Replay(lineSize, storeAllocate, old(Tags()), ops)
      ensures |hits| == |ops| && Accesses() == old(Accesses()) + |ops|
      ensures forall k :: 0 <= k < |ops| ==>
        hits[k] == HitsAfter(lineSize, storeAllocate, old(Tags()), ops[..k], ops[k])
    {
      hide Replay, HitsAfter, Probe, ProbeAll, AllHit, Walk, High, Ends, Separate;
      hits := [];
      ghost var qs := Tags();
      ReplayNone(lineSize, storeAllocate, qs);
      for k := 0 to |ops|
        invariant Valid() && Tags() == Replay(lineSize, storeAllocate, qs, ops[..k])
        invariant |hits| == k && Accesses() == old(Accesses()) + k
        invariant forall m :: 0 <= m < k ==> hits[m] == HitsAfter(lineSize, storeAllocate, qs, ops[..m], ops[m])
      {
        var op := ops[k];
        ReplayNext(lineSize, storeAllocate, qs, ops, k);
        var hit := Access(op.addr, op.size, op.kind);
        hits := hits + [hit];
      }
      assert ops[..|ops|] == ops;
    }
  }

  /** How many lines an access covers. */
  function Span(ls: nat, addr: nat, size: nat): int
    requires ls > 0 && size > 0
  {
    Div(addr + size - 1, ls) - Div(addr, ls) + 1
  }

  lemma {:induction false} NothingLoaded(qs: Queues, lines: seq<nat>)
    requires |qs| > 0
    ensures ProbeAll(qs, lines, false) == qs
  {
    if lines != [] { NothingLoaded(qs, lines[..|lines| - 1]); }
  }

  /** An allocating access that covers no more lines than there are sets leaves all of them in the cache. */
  lemma AccessLoads(qs: Queues, assoc: nat, ls: nat, addr: nat, size: nat)
    requires Shape(qs, assoc) && LineSize(ls) && ls > 0
    ensures size > 0 && Regular(ls, addr, size) && Span(ls, addr, size) <= |qs| ==>
      forall l: nat :: Overlaps(ls, addr, size, l) ==> l in ProbeAll(qs, Walk(ls, addr, size), true)[l % |qs|]
  {
    hide Walk, Overlaps, Regular, ProbeAll;
    if size > 0 && Regular(ls, addr, size) && Span(ls, addr, size) <= |qs| {
      WalkCovers(ls, addr, size);
      forall l: nat | Overlaps(ls, addr, size, l)
        ensures l in ProbeAll(qs, Walk(ls, addr, size), true)[l % |qs|]
      {
        CoveringExact(ls, addr, size, l);
        PassLoads(qs, Div(addr, ls), Span(ls, addr, size), assoc, l - Div(addr, ls));
      }
    }
  }

  predicate HitAt(qs: Queues, lines: seq<nat>, k: nat, alloc: bool)
    requires |qs| > 0 && k < |lines|
  {
    Hit(ProbeAll(qs, lines[..k], alloc), lines[k])
  }

  lemma HitAtPrefix(qs: Queues, lines: seq<nat>, n: nat, k: nat, alloc: bool)
    requires |qs| > 0 && k < n <= |lines|
    ensures HitAt(qs, lines[..n], k, alloc) == HitAt(qs, lines, k, alloc)
  {
    assert lines[..n][..k] == lines[..k];
  }

  lemma AllHitLast(qs: Queues, lines: seq<nat>, alloc: bool)
    requires |qs| > 0 && lines != []
    ensures AllHit(qs, lines, alloc) <==>
      AllHit(qs, lines[..|lines| - 1], alloc) && HitAt(qs, lines, |lines| - 1, alloc)
  {
  }

  /** Hitting everywhere means hitting on each line, with the lines before it already probed. */
  lemma {:induction false} AllHitExact(qs: Queues, lines: seq<nat>, alloc: bool)
    requires |qs| > 0
    ensures AllHit(qs, lines, alloc) <==>
      forall k :: 0 <= k < |lines| ==> HitAt(qs, lines, k, alloc)
  {
    if lines != [] {
      hide AllHit, HitAt;
      var n := |lines| - 1;
      AllHitExact(qs, lines[..n], alloc);
      AllHitLast(qs, lines, alloc);
      forall k | 0 <= k < n ensures HitAt(qs, lines[..n], k, alloc) == HitAt(qs, lines, k, alloc) {
        HitAtPrefix(qs, lines, n, k, alloc);
      }
    }
  }

  lemma ProbeNone(qs: Queues, alloc: bool)
    requires |qs| > 0
    ensures ProbeAll(qs, [], alloc) == qs && AllHit(qs, [], alloc)
  {
  }

  lemma ProbeOneMore(qs: Queues, lines: seq<nat>, k: nat, alloc: bool)
    requires |qs| > 0 && k < |lines|
    ensures ProbeAll(qs, lines[..k + 1], alloc) == Probe(ProbeAll(qs, lines[..k], alloc), lines[k], alloc)
    ensures AllHit(qs, lines[..k + 1], alloc) <==>
      AllHit(qs, lines[..k], alloc) && Hit(ProbeAll(qs, lines[..k], alloc), lines[k])
  {
    assert lines[..k + 1][..k] == lines[..k];
  }

  lemma VisitedAt(ls: nat, addr: nat, n: nat, k: nat)
    requires 0 < ls <= ADDRESSES && k < n
    ensures Visited(ls, addr, n)[k] == Div(Visit(ls, addr, k), ls)
  {
  }

  lemma StopsWhen(ls: nat, addr: nat, size: nat, n: nat, k: nat)
    requires 0 < ls <= ADDRESSES && StopsAfter(ls, addr, size, n) && k <= n
    ensures n > 0 && (0 < k ==> (Visit(ls, addr, k) < High(addr, size) <==> k < n))
  {
  }

  lemma VisitNext(ls: nat, addr: nat, k: nat)
    requires 0 < ls <= ADDRESSES
    ensures Visit(ls, addr, k + 1) == NextAddr(ls, Visit(ls, addr, k))
  {
  }

  lemma MaskIsMod(tag: nat, n: nat)
    requires PowerOf2(n)
    ensures n > 0 && And(tag, n - 1) == SetOf(tag, n)
  {
    var k: nat :| n == Pow2(k);
    AndLowMask(tag, k);
  }

  lemma ShiftIs(ls: nat, p: int)
    requires 0 < ls < 0x1_0000_0000 && IsPower2(ls) && p >= 0 && Pow2(p) <= ls < Pow2(p + 1)
    ensures Pow2(p) == ls && LineSize(ls)
  {
    Words();
    IsPower2Exact(ls);
    var k: nat :| ls == Pow2(k);
    if k < p { Pow2Grows(k, p); }
    if k > p + 1 { Pow2Grows(p + 1, k); }
  }

  /** Inside one line, `Access` and `AccessSingleLine` do the same. */
  lemma SingleLineAgrees(qs: Queues, ls: nat, addr: nat, size: nat, alloc: bool)
    requires |qs| > 0 && LineSize(ls) && ls > 0 && size > 0 && Regular(ls, addr, size)
    requires Div(addr, ls) == Div(addr + size - 1, ls)
    ensures Walk(ls, addr, size) == [Div(addr, ls)]
    ensures AllHit(qs, Walk(ls, addr, size), alloc) == Hit(qs, Div(addr, ls))
    ensures ProbeAll(qs, Walk(ls, addr, size), alloc) == Probe(qs, Div(addr, ls), alloc)
  {
    WalkCovers(ls, addr, size);
    var l := Div(addr, ls);
    assert Lines(l, 1) == [l] && [l][..0] == [];
  }

  /** Repeating an allocating access that covers no more lines than there are sets hits and
      leaves the cache as it is. */
  lemma RepeatedAccessHits(qs: Queues, assoc: nat, ls: nat, addr: nat, size: nat, alloc: bool)
    requires Shape(qs, assoc) && LineSize(ls) && ls > 0 && size > 0 && Regular(ls, addr, size)
    requires Div(addr + size - 1, ls) - Div(addr, ls) < |qs|
    ensures var w := Walk(ls, addr, size);
      var after := ProbeAll(qs, w, true);
      AllHit(after, w, alloc) && ProbeAll(after, w, alloc) == after
  {
    WalkCovers(ls, addr, size);
    CoveringExact(ls, addr, size, 0);
    RepeatHits(qs, Div(addr, ls), Div(addr + size - 1, ls) - Div(addr, ls) + 1, assoc, alloc);
  }

  // ---------- whole runs ----------

  datatype Op = Op(addr: nat, size: nat, kind: AccessType)

  /** Accesses whose loop ends. */
  predicate Ends(ls: nat, op: Op) {
    op.addr < ADDRESSES && op.size < 0x1_0000_0000 && High(op.addr, op.size) + ls <= ADDRESSES
  }

  /** What a sequence of calls of `Access` does to the queues. */
  function Replay(ls: nat, storeAllocate: bool, qs: Queues, ops: seq<Op>): (qs': Queues)
    requires ls > 0 && |qs| > 0
    ensures |qs'| == |qs|
  {
    if ops == [] then qs
    else
      var op := ops[|ops| - 1];
      var before := Replay(ls, storeAllocate, qs, ops[..|ops| - 1]);
      ProbeAll(before, Walk(ls, op.addr, op.size), Allocating(storeAllocate, op.kind))
  }

  predicate HitsAfter(ls: nat, storeAllocate: bool, qs: Queues, ops: seq<Op>, op: Op)
    requires ls > 0 && |qs| > 0
  {
    AllHit(Replay(ls, storeAllocate, qs, ops), Walk(ls, op.addr, op.size), Allocating(storeAllocate, op.kind))
  }

  lemma ReplayNone(ls: nat, storeAllocate: bool, qs: Queues)
    requires ls > 0 && |qs| > 0
    ensures Replay(ls, storeAllocate, qs, []) == qs
  {
  }

  lemma ReplayNext(ls: nat, storeAllocate: bool, qs: Queues, ops: seq<Op>, k: nat)
    requires ls > 0 && |qs| > 0 && k < |ops|
    ensures var op := ops[k]; var before, lines := Replay(ls, storeAllocate, qs, ops[..k]), Walk(ls, op.addr, op.size);
      && Replay(ls, storeAllocate, qs, ops[..k + 1]) == ProbeAll(before, lines, op.kind == Load || storeAllocate)
      && HitsAfter(ls, storeAllocate, qs, ops[..k], op) == AllHit(before, lines, op.kind == Load || storeAllocate)
      && (Ends(ls, op) <==> op.addr < ADDRESSES && op.size < 0x1_0000_0000 && High(op.addr, op.size) + ls <= ADDRESSES)
  {
    hide ProbeAll, AllHit, Walk, High;
    assert ops[..k + 1][..k] == ops[..k];
  }

  function Refs(lines: seq<nat>, alloc: bool): seq<Ref> {
    seq(|lines|, k requires 0 <= k < |lines| => Ref(lines[k], alloc))
  }

  /** The references to single lines that the calls make. */
  function AllRefs(ls: nat, storeAllocate: bool, ops: seq<Op>): seq<Ref>
    requires ls > 0
  {
    if ops == [] then []
    else
      var op := ops[|ops| - 1];
      var alloc := Allocating(storeAllocate, op.kind);
      AllRefs(ls, storeAllocate, ops[..|ops| - 1]) + Refs(Walk(ls, op.addr, op.size), alloc)
  }

  lemma {:induction false} ProbesAreReferences(qs: Queues, refs: seq<Ref>, lines: seq<nat>, alloc: bool)
    requires |qs| > 0
    ensures Refer(qs, refs + Refs(lines, alloc)) == ProbeAll(Refer(qs, refs), lines, alloc)
  {
    if lines == [] {
      assert refs + Refs(lines, alloc) == refs;
    } else {
      hide Probe;
      var n := |lines| - 1;
      ProbesAreReferences(qs, refs, lines[..n], alloc);
      var all := refs + Refs(lines, alloc);
      assert all[..|all| - 1] == refs + Refs(lines[..n], alloc);
    }
  }

  lemma {:induction false} ReplayIsReferences(ls: nat, storeAllocate: bool, qs: Queues, ops: seq<Op>)
    requires ls > 0 && |qs| > 0
    ensures Replay(ls, storeAllocate, qs, ops) == Refer(qs, AllRefs(ls, storeAllocate, ops))
  {
    if ops != [] {
      hide Walk, ProbeAll, Refer;
      var op := ops[|ops| - 1];
      ReplayIsReferences(ls, storeAllocate, qs, ops[..|ops| - 1]);
      ProbesAreReferences(qs, AllRefs(ls, storeAllocate, ops[..|ops| - 1]), Walk(ls, op.addr, op.size),
                          Allocating(storeAllocate, op.kind));
    } else {
      assert Refer(qs, []) == qs;
    }
  }

  /** After any calls on a new cache, every set is the FIFO queue of the references that fall
      into it, and every tag other than 0 is in the set its low bits name. */
  lemma RunRefinesQueues(ls: nat, storeAllocate: bool, sets: nat, assoc: nat, ops: seq<Op>, s: nat)
    requires ls > 0 && assoc > 0 && s < sets
    ensures var after := Replay(ls, storeAllocate, Empty(sets, assoc), ops);
      && after[s] == Queue(seq(assoc, _ => 0), Falling(AllRefs(ls, storeAllocate, ops), sets, s))
      && |after[s]| == assoc
      && forall t :: t in after[s] ==> t == 0 || SetOf(t, sets) == s
  {
    var refs := AllRefs(ls, storeAllocate, ops);
    ReplayIsReferences(ls, storeAllocate, Empty(sets, assoc), ops);
    SetsIndependent(Empty(sets, assoc), refs, s);
    PlacedAlways(sets, assoc, refs);
  }
}
