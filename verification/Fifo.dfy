/** What the round-robin cache computes: one FIFO queue of tags per set (pin-tools/dcache.H). */
module Fifo {
  import Bits

  // ---------- one set ----------

  /** A reference to a line; `alloc` says whether a miss brings the line in. */
  datatype Ref = Ref(tag: nat, alloc: bool)

  function Put(q: seq<nat>, r: Ref): (q': seq<nat>)
    ensures |q'| == |q|
  {
    if |q| == 0 || r.tag in q || !r.alloc then q else q[1..] + [r.tag]
  }

  /** The queue after the references. */
  function Queue(q: seq<nat>, refs: seq<Ref>): (q': seq<nat>)
    ensures |q'| == |q|
  {
    if refs == [] then q else Put(Queue(q, refs[..|refs| - 1]), refs[|refs| - 1])
  }

  /** The tags brought in, in order: one entry for each allocating miss. */
  function Missed(q: seq<nat>, refs: seq<Ref>): seq<nat> {
    if refs == [] then []
    else
      var n := |refs| - 1;
      var r := refs[n];
      Missed(q, refs[..n]) + if r.alloc && r.tag !in Queue(q, refs[..n]) then [r.tag] else []
  }

  /** One more reference. */
  lemma QueuePush(q: seq<nat>, refs: seq<Ref>, r: Ref)
    ensures Queue(q, refs + [r]) == Put(Queue(q, refs), r)
    ensures Missed(q, refs + [r]) ==
      if r.alloc && r.tag !in Queue(q, refs) then Missed(q, refs) + [r.tag] else Missed(q, refs)
    ensures refs + [] == refs
  {
    assert (refs + [r])[..|refs|] == refs;
  }

  lemma TailPush(q: seq<nat>, m: seq<nat>, t: nat)
    requires |q| > 0
    ensures (q + m)[|m|..][1..] + [t] == (q + (m + [t]))[|m + [t]|..]
  {
  }

  /** The queue is the tail of everything ever brought in. */
  lemma {:induction false} QueueIsTail(q: seq<nat>, refs: seq<Ref>)
    requires |q| > 0
    ensures Queue(q, refs) == (q + Missed(q, refs))[|Missed(q, refs)|..]
  {
    if refs == [] {
      assert (q + [])[0..] == q;
    } else {
      hide Queue, Missed;
      var n := |refs| - 1;
      assert refs == refs[..n] + [refs[n]];
      QueueIsTail(q, refs[..n]);
      QueuePush(q, refs[..n], refs[n]);
      TailPush(q, Missed(q, refs[..n]), refs[n].tag);
    }
  }

  /** Two entries of the miss list with the same tag are more than `a` misses apart. */
  ghost predicate Spread(m: seq<nat>, a: nat) {
    forall i, j :: 0 <= i < j < |m| && j - i <= a ==> m[i] != m[j]
  }

  /** Between two misses on one tag lie at least `associativity` misses, on tags that
      differ from it and from each other. */
  lemma {:induction false} MissesSpread(q: seq<nat>, refs: seq<Ref>)
    requires |q| > 0
    ensures Spread(Missed(q, refs), |q|)
  {
    if refs != [] {
      var n := |refs| - 1;
      var m, r := Missed(q, refs[..n]), refs[n];
      MissesSpread(q, refs[..n]);
      QueueIsTail(q, refs[..n]);
      if r.alloc && r.tag !in Queue(q, refs[..n]) {
        forall i | 0 <= i < |m| && |m| - i <= |q| ensures m[i] != r.tag {
          assert m[i] == (q + m)[|m|..][i + |q| - |m|];
        }
      }
    }
  }

  lemma {:induction false} MissedAreReferenced(q: seq<nat>, refs: seq<Ref>, t: nat)
    requires t in Missed(q, refs)
    ensures exists k :: 0 <= k < |refs| && refs[k].alloc && refs[k].tag == t
  {
    var n := |refs| - 1;
    if !(refs[n].alloc && refs[n].tag == t) { MissedAreReferenced(q, refs[..n], t); }
  }

  lemma {:induction false} DistinctBounded(m: seq<nat>, s: set<nat>)
    requires forall i, j :: 0 <= i < j < |m| ==> m[i] != m[j]
    requires forall t :: t in m ==> t in s
    ensures |m| <= |s|
  {
    if m != [] {
      var n := |m| - 1;
      assert m == m[..n] + [m[n]];
      DistinctBounded(m[..n], s - {m[n]});
    }
  }

  /** A list spread over more than the number of its values has no repetition. */
  lemma SpreadIsDistinct(m: seq<nat>, a: nat, s: set<nat>, i: nat, j: nat)
    requires Spread(m, a) && |s| <= a && i < j < |m|
    requires forall t :: t in m ==> t in s
    ensures m[i] != m[j]
  {
    if j - i > a {
      var w := m[i..i + a + 1];
      forall x, y | 0 <= x < y < |w| ensures w[x] != w[y] {
        assert m[i + x] != m[i + y];
      }
      DistinctBounded(w, s);
    }
  }

  /** References to at most `associativity` distinct tags bring each of them in at most once. */
  lemma FewTagsMissOnce(q: seq<nat>, refs: seq<Ref>, s: set<nat>)
    requires |q| > 0 && |s| <= |q|
    requires forall r :: r in refs ==> r.tag in s
    ensures var m := Missed(q, refs);
      (forall i, j :: 0 <= i < j < |m| ==> m[i] != m[j]) && (forall t :: t in m ==> t in s) && |m| <= |s|
  {
    var m := Missed(q, refs);
    MissesSpread(q, refs);
    forall t | t in m ensures t in s { MissedAreReferenced(q, refs, t); }
    forall i, j | 0 <= i < j < |m| ensures m[i] != m[j] { SpreadIsDistinct(m, |q|, s, i, j); }
    DistinctBounded(m, s);
  }

  // ---------- all sets ----------

  type Queues = seq<seq<nat>>

  ghost predicate Shape(qs: Queues, assoc: nat) {
    |qs| > 0 && assoc > 0 && forall s :: 0 <= s < |qs| ==> |qs[s]| == assoc
  }

  /** The queues of a new cache: there is no valid bit, every way holds tag 0. */
  function Empty(sets: nat, assoc: nat): Queues {
    seq(sets, _ => seq(assoc, _ => 0))
  }

  function SetOf(line: nat, sets: nat): (s: nat)
    requires sets > 0
    ensures s < sets
  {
    line % sets
  }

  predicate Hit(qs: Queues, line: nat)
    requires |qs| > 0
  {
    line in qs[SetOf(line, |qs|)]
  }

  function Probe(qs: Queues, line: nat, alloc: bool): (qs': Queues)
    requires |qs| > 0
    ensures |qs'| == |qs|
  {
    qs[SetOf(line, |qs|) := Put(qs[SetOf(line, |qs|)], Ref(line, alloc))]
  }

  function ProbeAll(qs: Queues, lines: seq<nat>, alloc: bool): (qs': Queues)
    requires |qs| > 0
    ensures |qs'| == |qs|
  {
    if lines == [] then qs
    else Probe(ProbeAll(qs, lines[..|lines| - 1], alloc), lines[|lines| - 1], alloc)
  }

  predicate AllHit(qs: Queues, lines: seq<nat>, alloc: bool)
    requires |qs| > 0
  {
    lines == [] || (AllHit(qs, lines[..|lines| - 1], alloc) &&
                    Hit(ProbeAll(qs, lines[..|lines| - 1], alloc), lines[|lines| - 1]))
  }

  /** A mixture of allocating and other references. */
  function Refer(qs: Queues, refs: seq<Ref>): (qs': Queues)
    requires |qs| > 0
    ensures |qs'| == |qs|
  {
    if refs == [] then qs
    else var n := |refs| - 1; Probe(Refer(qs, refs[..n]), refs[n].tag, refs[n].alloc)
  }

  /** The references that fall into set `s`. */
  function Falling(refs: seq<Ref>, sets: nat, s: nat): (rs: seq<Ref>)
    requires sets > 0
  {
    if refs == [] then []
    else
      var n := |refs| - 1;
      Falling(refs[..n], sets, s) + if SetOf(refs[n].tag, sets) == s then [refs[n]] else []
  }

  /** The sets do not interfere: each is the queue of the references that fall into it. */
  lemma {:induction false} SetsIndependent(qs: Queues, refs: seq<Ref>, s: nat)
    requires s < |qs|
    ensures Refer(qs, refs)[s] == Queue(qs[s], Falling(refs, |qs|, s))
  {
    if refs != [] {
      hide Put, SetOf;
      var n := |refs| - 1;
      SetsIndependent(qs, refs[..n], s);
      QueuePush(qs[s], Falling(refs[..n], |qs|, s), refs[n]);
    }
  }

  lemma {:induction false} FallingSubset(refs: seq<Ref>, sets: nat, s: nat, r: Ref)
    requires sets > 0
    ensures r in Falling(refs, sets, s) <==> r in refs && SetOf(r.tag, sets) == s
  {
    if refs != [] {
      var n := |refs| - 1;
      FallingSubset(refs[..n], sets, s, r);
      assert refs == refs[..n] + [refs[n]];
    }
  }

  /** However long the run: if at most `assoc` distinct tags of a set are used, the set
      allocates at most that often. */
  lemma WorkingSetMissesOnce(sets: nat, assoc: nat, refs: seq<Ref>, s: nat, tags: set<nat>)
    requires s < sets && 0 < assoc && |tags| <= assoc
    requires forall r :: r in refs && SetOf(r.tag, sets) == s ==> r.tag in tags
    ensures |Missed(Empty(sets, assoc)[s], Falling(refs, sets, s))| <= |tags|
  {
    forall r | r in Falling(refs, sets, s) ensures r.tag in tags { FallingSubset(refs, sets, s, r); }
    FewTagsMissOnce(Empty(sets, assoc)[s], Falling(refs, sets, s), tags);
  }

  /** Every tag other than 0 sits in the set that its low bits name. */
  ghost predicate Placed(qs: Queues) {
    forall s, t :: 0 <= s < |qs| && t in qs[s] ==> t == 0 || SetOf(t, |qs|) == s
  }

  lemma ProbeKeepsPlaced(qs: Queues, line: nat, alloc: bool, assoc: nat)
    requires Placed(qs) && Shape(qs, assoc)
    ensures Placed(Probe(qs, line, alloc)) && Shape(Probe(qs, line, alloc), assoc)
  {
    var i := SetOf(line, |qs|);
    var q := qs[i];
    forall t | t in Put(q, Ref(line, alloc)) ensures t in q || t == line {}
  }

  lemma {:induction false} PlacedAlways(sets: nat, assoc: nat, refs: seq<Ref>)
    requires sets > 0 && assoc > 0
    ensures Placed(Refer(Empty(sets, assoc), refs)) && Shape(Refer(Empty(sets, assoc), refs), assoc)
  {
    if refs != [] {
      var n := |refs| - 1;
      PlacedAlways(sets, assoc, refs[..n]);
      ProbeKeepsPlaced(Refer(Empty(sets, assoc), refs[..n]), refs[n].tag, refs[n].alloc, assoc);
    }
  }

  // ---------- consecutive lines ----------

  function Lines(lo: nat, n: nat): (ls: seq<nat>)
    ensures |ls| == n && forall k :: 0 <= k < n ==> ls[k] == lo + k
  {
    seq(n, k requires 0 <= k < n => lo + k)
  }

  lemma LinesPrefix(lo: nat, n: nat)
    requires n > 0
    ensures Lines(lo, n)[..n - 1] == Lines(lo, n - 1) && Lines(lo, n)[n - 1] == lo + n - 1
  {
  }

  lemma SetsDiffer(a: nat, b: nat, sets: nat)
    requires a < b < a + sets
    ensures SetOf(a, sets) != SetOf(b, sets)
  {
    var d := b / sets - a / sets;
    Bits.MulBig(sets, d);
    assert b - a == sets * d + (b % sets - a % sets);
  }

  /** After an allocating pass over at most `sets` lines all of them are present. */
  lemma {:induction false} PassLoads(qs: Queues, lo: nat, n: nat, assoc: nat, k: nat)
    requires Shape(qs, assoc) && k < n <= |qs|
    ensures Shape(ProbeAll(qs, Lines(lo, n), true), assoc)
    ensures Hit(ProbeAll(qs, Lines(lo, n), true), lo + k)
  {
    LinesPrefix(lo, n);
    var p, last := ProbeAll(qs, Lines(lo, n - 1), true), lo + n - 1;
    if k < n - 1 {
      PassLoads(qs, lo, n - 1, assoc, k);
      SetsDiffer(lo + k, last, |qs|);
    } else {
      PassShape(qs, lo, n - 1, assoc);
    }
  }

  lemma {:induction false} PassShape(qs: Queues, lo: nat, n: nat, assoc: nat)
    requires Shape(qs, assoc)
    ensures Shape(ProbeAll(qs, Lines(lo, n), true), assoc)
  {
    if n > 0 {
      LinesPrefix(lo, n);
      PassShape(qs, lo, n - 1, assoc);
    }
  }

  /** Probing present lines hits and changes nothing. */
  lemma {:induction false} PresentLinesHit(qs: Queues, lines: seq<nat>, alloc: bool)
    requires |qs| > 0 && forall l :: l in lines ==> Hit(qs, l)
    ensures ProbeAll(qs, lines, alloc) == qs && AllHit(qs, lines, alloc)
  {
    if lines != [] {
      hide SetOf;
      PresentLinesHit(qs, lines[..|lines| - 1], alloc);
      assert Hit(qs, lines[|lines| - 1]);
    }
  }

  /** Repeating an allocating pass over at most `sets` lines hits on every line and changes nothing. */
  lemma RepeatHits(qs: Queues, lo: nat, n: nat, assoc: nat, alloc: bool)
    requires Shape(qs, assoc) && n <= |qs|
    ensures var after := ProbeAll(qs, Lines(lo, n), true);
      AllHit(after, Lines(lo, n), alloc) && ProbeAll(after, Lines(lo, n), alloc) == after
  {
    hide ProbeAll, Hit, AllHit;
    var after := ProbeAll(qs, Lines(lo, n), true);
    forall l | l in Lines(lo, n) ensures Hit(after, l) { PassLoads(qs, lo, n, assoc, l - lo); }
    PresentLinesHit(after, Lines(lo, n), alloc);
  }
}
