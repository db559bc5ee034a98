/** The category profiler (pin-tools/catmix.cpp).

    A block counts its executions in one counter and remembers the categories of its
    instructions in a list closed by a zero; the profile is computed at the end from both. */
module CatMix {
  const MAX_INDEX: nat := 64

  datatype Ins = Ins(predicated: bool, category: nat)

  type Block = seq<Ins>

  /** The two counter arrays, `unpredicated` and `predicated`, follow each other in memory, so one
      index addresses both. */
  function StatsIndex(ins: Ins): nat {
    if ins.predicated then MAX_INDEX + ins.category else ins.category
  }

  /** A slot belongs to one kind of instruction only. */
  lemma StatsIndexInjective(a: Ins, b: Ins)
    requires a.category < MAX_INDEX && b.category < MAX_INDEX && StatsIndex(a) == StatsIndex(b)
    ensures a == b && StatsIndex(a) < 2 * MAX_INDEX
  {
  }

  function Slots(b: Block): (s: seq<nat>)
    ensures |s| == |b|
  {
    if b == [] then [] else Slots(b[..|b| - 1]) + [StatsIndex(b[|b| - 1])]
  }

  ghost predicate Known(b: Block) {
    forall ins :: ins in b ==> ins.category < MAX_INDEX
  }

  function Occurs(s: seq<nat>, slot: nat): nat {
    if s == [] then 0 else Occurs(s[..|s| - 1], slot) + if s[|s| - 1] == slot then 1 else 0
  }

  // ---------- what should be counted ----------

  /** Only blocks already instrumented are executed. */
  ghost predicate InRange(blocks: seq<Block>, log: seq<nat>) {
    forall i :: 0 <= i < |log| ==> log[i] < |blocks|
  }

  /** The executed instructions that belong to `slot`; `log` names the executed blocks in order. */
  ghost function Executed(blocks: seq<Block>, log: seq<nat>, slot: nat): nat
    requires InRange(blocks, log)
  {
    if log == [] then 0
    else Executed(blocks, log[..|log| - 1], slot) + Occurs(Slots(blocks[log[|log| - 1]]), slot)
  }

  // ---------- what is counted ----------

  /** The part of a list before its first zero. */
  function Cut(s: seq<nat>): seq<nat> {
    if s == [] || s[0] == 0 then [] else [s[0]] + Cut(s[1..])
  }

  function Times(log: seq<nat>, k: nat): nat { Occurs(log, k) }

  function Weight(blocks: seq<Block>, log: seq<nat>, k: nat, slot: nat): nat
    requires k < |blocks|
  {
    Times(log, k) * Occurs(Cut(Slots(blocks[k])), slot)
  }

  /** The sum over the first n blocks: executions times occurrences. */
  function Summed(blocks: seq<Block>, log: seq<nat>, n: nat, slot: nat): nat
    requires n <= |blocks|
  {
    if n == 0 then 0 else Summed(blocks, log, n - 1, slot) + Weight(blocks, log, n - 1, slot)
  }

  class BblStats {
    const stats: seq<nat>
    var counter: nat

    constructor (stats: seq<nat>)
      ensures this.stats == stats && counter == 0
    {
      this.stats := stats;
      counter := 0;
    }

    method DoCount()
      modifies this
      ensures counter == old(counter) + 1
    {
      counter := counter + 1;
    }
  }

  class Profiler {
    var statsList: seq<BblStats>
    ghost var blocks: seq<Block>
    ghost var log: seq<nat>

    ghost predicate Valid()
      reads this, statsList
    {
      && |statsList| == |blocks|
      && InRange(blocks, log)
      && (forall j, k :: 0 <= j < k < |statsList| ==> statsList[j] != statsList[k])
      && (forall k :: 0 <= k < |statsList| ==>
            statsList[k].stats == Slots(blocks[k]) + [0] && statsList[k].counter == Times(log, k))
      && (forall k :: 0 <= k < |blocks| ==> Known(blocks[k]))
    }

    constructor ()
      ensures Valid() && blocks == [] && log == []
    {
      statsList, blocks, log := [], [], [];
    }

    /** The zero-terminated list of one block. */
    static method Summarize(b: Block) returns (stats: array<nat>)
      ensures fresh(stats) && stats[..] == Slots(b) + [0]
      ensures stats.Length == |b| + 1 && stats[|b|] == 0
      ensures forall p :: 0 <= p < |b| ==> stats[p] == if b[p].predicated then 64 + b[p].category else b[p].category
    {
      stats := new nat[|b| + 1];
      for index := 0 to |b|
        invariant stats[..index] == Slots(b[..index])
      {
        assert b[..index + 1][..index] == b[..index];
        stats[index] := StatsIndex(b[index]);
      }
      assert b[..|b|] == b;
      stats[|b|] := 0;
      assert stats[..] == stats[..|b|] + [0];
      forall p | 0 <= p < |b| ensures Slots(b)[p] == StatsIndex(b[p]) { SlotAt(b, p); }
    }

    /** Instrumentation of a trace of blocks. */
    method Trace(bs: seq<Block>)
      requires Valid() && forall k :: 0 <= k < |bs| ==> Known(bs[k])
      modifies this
      ensures Valid() && blocks == old(blocks) + bs && log == old(log)
      ensures old(statsList) <= statsList
    {
      for i := 0 to |bs|
        invariant Valid() && blocks == old(blocks) + bs[..i] && log == old(log)
        invariant old(statsList) <= statsList
      {
        TraceBlock(bs[i]);
        assert bs[..i + 1] == bs[..i] + [bs[i]];
      }
      assert bs[..|bs|] == bs;
    }

    method TraceBlock(b: Block)
      requires Valid() && Known(b)
      modifies this
      ensures Valid() && blocks == old(blocks) + [b] && log == old(log)
      ensures |statsList| == |old(statsList)| + 1 && statsList[..|old(statsList)|] == old(statsList)
    {
      var stats := Summarize(b);
      var bblstats := new BblStats(stats[..]);
      NeverRun(log, |blocks|);
      statsList := statsList + [bblstats];
      blocks := blocks + [b];
    }

    /** The call inserted for block k. */
    method Execute(k: nat)
      requires Valid() && k < |statsList|
      modifies this`log, statsList[k]
      ensures Valid() && log == old(log) + [k]
    {
      statsList[k].DoCount();
      log := log + [k];
      assert log[..|log| - 1] == old(log);
    }

    /** The profile, added to the totals. */
    method ComputeGlobalStats(totals: array<nat>)
      requires Valid() && totals.Length == 2 * MAX_INDEX
      modifies totals
      ensures forall slot :: 0 <= slot < totals.Length ==>
                totals[slot] == old(totals[slot]) + Summed(blocks, log, |blocks|, slot)
    {
      for k := 0 to |statsList|
        invariant forall slot :: 0 <= slot < totals.Length ==>
                    totals[slot] == old(totals[slot]) + Summed(blocks, log, k, slot)
      {
        AddBlock(k, totals);
      }
    }

    method AddBlock(k: nat, totals: array<nat>)
      requires Valid() && totals.Length == 2 * MAX_INDEX && k < |statsList|
      modifies totals
      ensures forall slot :: 0 <= slot < totals.Length ==>
                totals[slot] == old(totals[slot]) + Weight(blocks, log, k, slot)
    {
      var stats, counter := statsList[k].stats, statsList[k].counter;
      var p := 0;
      while stats[p] != 0
        invariant p < |stats| && 0 !in stats[..p]
        invariant forall slot :: 0 <= slot < totals.Length ==>
                    totals[slot] == old(totals[slot]) + counter * Occurs(stats[..p], slot)
        decreases |stats| - p
      {
        SlotInRange(blocks[k], p);
        label L:
        totals[stats[p]] := totals[stats[p]] + counter;
        forall slot | 0 <= slot < totals.Length
          ensures totals[slot] == old(totals[slot]) + counter * Occurs(stats[..p + 1], slot)
        {
          OccursNext(stats, p, slot, counter);
        }
        p := p + 1;
      }
      assert stats[..p] == Slots(blocks[k])[..p];
      CutAt(Slots(blocks[k]), p);
    }
  }

  lemma {:induction false} NeverRun(log: seq<nat>, k: nat)
    requires k !in log
    ensures Times(log, k) == 0
  {
    if log != [] { NeverRun(log[..|log| - 1], k); }
  }

  lemma {:induction false} SlotAt(b: Block, p: nat)
    requires p < |b|
    ensures Slots(b)[p] == StatsIndex(b[p])
  {
    if p < |b| - 1 { SlotAt(b[..|b| - 1], p); }
  }

  lemma SlotInRange(b: Block, p: nat)
    requires Known(b) && p < |b|
    ensures Slots(b)[p] < 2 * MAX_INDEX
  {
    SlotAt(b, p);
    assert b[p] in b;
  }

  lemma OccursNext(s: seq<nat>, p: nat, slot: nat, c: nat)
    requires p < |s|
    ensures c * Occurs(s[..p + 1], slot) == c * Occurs(s[..p], slot) + if s[p] == slot then c else 0
  {
    assert s[..p + 1][..p] == s[..p];
  }

  lemma {:induction false} CutAt(s: seq<nat>, p: nat)
    requires p <= |s| && 0 !in s[..p] && (p == |s| || s[p] == 0)
    ensures Cut(s) == s[..p]
  {
    if p > 0 {
      assert s[0] == s[..p][0];
      assert s[..p] == [s[0]] + s[1..][..p - 1];
      CutAt(s[1..], p - 1);
    }
  }

  // ---------- the profile is the count ----------

  /** The executed instructions that the lists show. */
  ghost function Shown(blocks: seq<Block>, log: seq<nat>, slot: nat): nat
    requires InRange(blocks, log)
  {
    if log == [] then 0
    else Shown(blocks, log[..|log| - 1], slot) + Occurs(Cut(Slots(blocks[log[|log| - 1]])), slot)
  }

  lemma OnceMore(t: nat, o: nat)
    ensures (t + 1) * o == t * o + o
  {
  }

  lemma {:induction false} OneMore(blocks: seq<Block>, log: seq<nat>, n: nat, slot: nat)
    requires n <= |blocks| && log != [] && log[|log| - 1] < |blocks|
    ensures var e := log[|log| - 1];
      Summed(blocks, log, n, slot) == Summed(blocks, log[..|log| - 1], n, slot)
        + if e < n then Occurs(Cut(Slots(blocks[e])), slot) else 0
  {
    if n > 0 {
      OneMore(blocks, log, n - 1, slot);
      var o, t := Occurs(Cut(Slots(blocks[n - 1])), slot), Times(log[..|log| - 1], n - 1);
      OnceMore(t, o);
    }
  }

  lemma {:induction false} NothingRun(blocks: seq<Block>, n: nat, slot: nat)
    requires n <= |blocks|
    ensures Summed(blocks, [], n, slot) == 0
  {
    if n > 0 { NothingRun(blocks, n - 1, slot); }
  }

  /** Multiplying counters at the end equals counting at every execution. */
  lemma {:induction false} CountersSum(blocks: seq<Block>, log: seq<nat>, slot: nat)
    requires InRange(blocks, log)
    ensures Summed(blocks, log, |blocks|, slot) == Shown(blocks, log, slot)
  {
    if log == [] {
      NothingRun(blocks, |blocks|, slot);
    } else {
      OneMore(blocks, log, |blocks|, slot);
      CountersSum(blocks, log[..|log| - 1], slot);
    }
  }

  lemma {:induction false} OccursIff(s: seq<nat>, slot: nat)
    ensures Occurs(s, slot) > 0 <==> slot in s
  {
    if s != [] { OccursIff(s[..|s| - 1], slot); assert s == s[..|s| - 1] + [s[|s| - 1]]; }
  }

  lemma {:induction false} CutHasNoZero(s: seq<nat>)
    ensures 0 !in Cut(s)
    ensures 0 !in s ==> Cut(s) == s
  {
    if s != [] && s[0] != 0 { CutHasNoZero(s[1..]); }
  }

  lemma {:induction false} NoZeroShown(blocks: seq<Block>, log: seq<nat>)
    requires InRange(blocks, log)
    ensures Shown(blocks, log, 0) == 0
    ensures (exists i :: 0 <= i < |log| && 0 in Slots(blocks[log[i]])) ==> Executed(blocks, log, 0) > 0
  {
    if log != [] {
      var n := |log| - 1;
      NoZeroShown(blocks, log[..n]);
      var s := Slots(blocks[log[n]]);
      CutHasNoZero(s);
      OccursIff(Cut(s), 0);
      OccursIff(s, 0);
    }
  }

  lemma {:induction false} AllShown(blocks: seq<Block>, log: seq<nat>, slot: nat)
    requires InRange(blocks, log) && forall i :: 0 <= i < |log| ==> 0 !in Slots(blocks[log[i]])
    ensures Shown(blocks, log, slot) == Executed(blocks, log, slot)
  {
    if log != [] {
      var n := |log| - 1;
      CutHasNoZero(Slots(blocks[log[n]]));
      AllShown(blocks, log[..n], slot);
    }
  }

  lemma ZeroSlot(b: Block)
    ensures 0 in Slots(b) <==> Ins(false, 0) in b
  {
    if 0 in Slots(b) {
      var p :| 0 <= p < |b| && Slots(b)[p] == 0;
      SlotAt(b, p);
      assert b[p] == Ins(false, 0);
    }
    if Ins(false, 0) in b {
      var p :| 0 <= p < |b| && b[p] == Ins(false, 0);
      SlotAt(b, p);
    }
  }

  /** The executions of an instruction: which block execution, and where in the block. */
  ghost function ExecutionsOf(blocks: seq<Block>, log: seq<nat>, ins: Ins): set<(nat, nat)>
    requires InRange(blocks, log)
  {
    set i: nat, p: nat | i < |log| && p < |blocks[log[i]]| && blocks[log[i]][p] == ins :: (i, p)
  }

  /** The places of an instruction in a block, as executed by block execution `i`. */
  ghost function PlacesOf(b: Block, i: nat, ins: Ins): set<(nat, nat)> {
    set p: nat | p < |b| && b[p] == ins :: (i, p)
  }

  lemma PlacesNext(b: Block, i: nat, ins: Ins)
    requires b != []
    ensures var n := |b| - 1; var before := PlacesOf(b[..n], i, ins);
      PlacesOf(b, i, ins) == (if b[n] == ins then before + {(i, n)} else before) && (i, n) !in before
  {
    var n := |b| - 1;
    assert forall p :: 0 <= p < n ==> b[..n][p] == b[p];
  }

  lemma OccursLast(b: Block, slot: nat)
    requires b != []
    ensures Occurs(Slots(b), slot) ==
      Occurs(Slots(b[..|b| - 1]), slot) + if StatsIndex(b[|b| - 1]) == slot then 1 else 0
  {
    assert Slots(b)[..|b| - 1] == Slots(b[..|b| - 1]);
  }

  lemma {:induction false} PlacesCount(b: Block, i: nat, ins: Ins)
    requires Known(b) && ins.category < MAX_INDEX
    ensures |PlacesOf(b, i, ins)| == Occurs(Slots(b), StatsIndex(ins))
  {
    if b == [] {
      assert PlacesOf(b, i, ins) == {};
    } else {
      hide PlacesOf, Occurs, Slots;
      var n := |b| - 1;
      PlacesCount(b[..n], i, ins);
      PlacesNext(b, i, ins);
      OccursLast(b, StatsIndex(ins));
      assert b[n] in b;
    }
  }

  lemma ExecutionsNext(blocks: seq<Block>, log: seq<nat>, ins: Ins)
    requires InRange(blocks, log) && log != []
    ensures var n := |log| - 1;
      var before, now := ExecutionsOf(blocks, log[..n], ins), PlacesOf(blocks[log[n]], n, ins);
      ExecutionsOf(blocks, log, ins) == before + now && before !! now
  {
    var n := |log| - 1;
    assert forall i :: 0 <= i < n ==> log[..n][i] == log[i];
  }

  /** What should be counted in the slot of an instruction are its executions. */
  lemma {:induction false} ExecutedCounts(blocks: seq<Block>, log: seq<nat>, ins: Ins)
    requires InRange(blocks, log) && (forall b :: b in blocks ==> Known(b)) && ins.category < 64
    ensures Executed(blocks, log, if ins.predicated then 64 + ins.category else ins.category)
         == |ExecutionsOf(blocks, log, ins)|
  {
    if log == [] {
      assert ExecutionsOf(blocks, log, ins) == {};
    } else {
      hide Known, Occurs, Slots, ExecutionsOf, PlacesOf;
      var n := |log| - 1;
      ExecutedCounts(blocks, log[..n], ins);
      PlacesCount(blocks[log[n]], n, ins);
      ExecutionsNext(blocks, log, ins);
    }
  }

  /** The profile counts every executed instruction in its own slot exactly when no executed block
      has an unpredicated instruction of category 0, whose index ends the block's list early. */
  lemma ProfileExact(blocks: seq<Block>, log: seq<nat>)
    requires InRange(blocks, log)
    ensures (forall slot: nat :: slot < 2 * MAX_INDEX ==>
               Summed(blocks, log, |blocks|, slot) == Executed(blocks, log, slot))
       <==> (forall i :: 0 <= i < |log| ==> Ins(false, 0) !in blocks[log[i]])
  {
    forall i | 0 <= i < |log| ensures 0 in Slots(blocks[log[i]]) <==> Ins(false, 0) in blocks[log[i]] {
      ZeroSlot(blocks[log[i]]);
    }
    if forall i :: 0 <= i < |log| ==> Ins(false, 0) !in blocks[log[i]] {
      forall slot: nat ensures Summed(blocks, log, |blocks|, slot) == Executed(blocks, log, slot) {
        CountersSum(blocks, log, slot);
        AllShown(blocks, log, slot);
      }
    } else {
      CountersSum(blocks, log, 0);
      NoZeroShown(blocks, log);
      assert Summed(blocks, log, |blocks|, 0) != Executed(blocks, log, 0);
    }
  }
}
