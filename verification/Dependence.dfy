/** Dependence depths and edges of a located trace (tools/rename-x86.py). */
module Dependence {
  import opened Renaming

  type Trace = seq<Inst<Reg>>

  function Max(a: nat, b: nat): nat { if a < b then b else a }

  // ---------- one pass over the trace, as functions of the prefix read so far ----------

  /** `dependence_depth.get(x, 0)` */
  function Get(depth: map<Reg, nat>, x: Reg): nat {
    if x in depth then depth[x] else 0
  }

  function MaxDepth(depth: map<Reg, nat>, rs: seq<Reg>): nat {
    if rs == [] then 0 else Max(MaxDepth(depth, rs[..|rs| - 1]), Get(depth, rs[|rs| - 1]))
  }

  lemma {:induction false} MaxDepthBounds(depth: map<Reg, nat>, rs: seq<Reg>, x: Reg)
    requires x in rs
    ensures Get(depth, x) <= MaxDepth(depth, rs)
  {
    var n := |rs| - 1;
    if rs[n] != x { MaxDepthBounds(depth, rs[..n], x); }
  }

  lemma {:induction false} MaxDepthBelow(depth: map<Reg, nat>, rs: seq<Reg>, b: nat)
    requires forall x :: x in rs ==> Get(depth, x) <= b
    ensures MaxDepth(depth, rs) <= b
  {
    if rs != [] { MaxDepthBelow(depth, rs[..|rs| - 1], b); }
  }

  function SetAll(m: map<Reg, nat>, rs: seq<Reg>, v: nat): map<Reg, nat> {
    if rs == [] then m else SetAll(m, rs[..|rs| - 1], v)[rs[|rs| - 1] := v]
  }

  lemma {:induction false} SetAllAt(m: map<Reg, nat>, rs: seq<Reg>, v: nat, x: Reg)
    ensures x in SetAll(m, rs, v) <==> x in m || x in rs
    ensures x in SetAll(m, rs, v) ==> SetAll(m, rs, v)[x] == if x in rs then v else m[x]
  {
    if rs != [] {
      var n := |rs| - 1;
      SetAllAt(m, rs[..n], v, x);
      assert rs == rs[..n] + [rs[n]];
    }
  }

  /** The depth added by a result: the latency with --track-latency, one without. */
  function Weight(lat: bool, i: Inst<Reg>): nat {
    if lat then i.latency else 1
  }

  datatype Depths = Depths(depth: map<Reg, nat>, branch: nat, of: seq<nat>)

  function InstDepth(s: Depths, i: Inst<Reg>): nat {
    Max(Max(MaxDepth(s.depth, i.ins), MaxDepth(s.depth, i.outs)), s.branch)
  }

  function DepthStep(lat: bool, s: Depths, i: Inst<Reg>): Depths {
    var d := InstDepth(s, i);
    Depths(SetAll(SetAll(s.depth, i.ins, d), i.outs, d + Weight(lat, i)),
           if i.isBranch then d + 1 else s.branch,
           s.of + [d])
  }

  function DepthRun(lat: bool, t: Trace): (s: Depths)
    ensures |s.of| == |t|
  {
    if t == [] then Depths(map[], 0, [])
    else var n := |t| - 1; DepthStep(lat, DepthRun(lat, t[..n]), t[n])
  }

  /** The number reported as the critical path, before the final increment. */
  function MaxDepthRun(lat: bool, t: Trace): nat {
    if t == [] then 1
    else
      var n := |t| - 1;
      var s := DepthRun(lat, t);
      Max(Max(MaxDepthRun(lat, t[..n]), s.of[n]), if t[n].isBranch then s.branch else 0)
  }

  /** One step, register by register. */
  lemma DepthStepAt(lat: bool, s: Depths, i: Inst<Reg>, x: Reg)
    ensures var s', d := DepthStep(lat, s, i), InstDepth(s, i);
      && Get(s'.depth, x) == (if x in i.outs then d + Weight(lat, i) else if x in i.ins then d else Get(s.depth, x))
      && Get(s.depth, x) <= Get(s'.depth, x) && s.branch <= s'.branch
      && (Touches(i, x) ==> Get(s.depth, x) <= d)
  {
    var d := InstDepth(s, i);
    SetAllAt(s.depth, i.ins, d, x);
    SetAllAt(SetAll(s.depth, i.ins, d), i.outs, d + Weight(lat, i), x);
    if x in i.ins { MaxDepthBounds(s.depth, i.ins, x); }
    if x in i.outs { MaxDepthBounds(s.depth, i.outs, x); }
  }

  lemma {:induction false} DepthsPrefix(lat: bool, t: Trace, n: nat)
    requires n <= |t|
    ensures DepthRun(lat, t).of[..n] == DepthRun(lat, t[..n]).of
    decreases |t|
  {
    if n == |t| {
      assert t[..n] == t;
    } else {
      DepthsPrefix(lat, t[..|t| - 1], n);
      assert t[..|t| - 1][..n] == t[..n];
    }
  }

  // ---------- the constraint system ----------

  ghost predicate Meets(rs: seq<Reg>, i: Inst<Reg>) {
    exists x :: x in rs && Touches(i, x)
  }

  /** What the depth `dj` of an earlier instruction `i` demands of the depth `dk` of a later one `k`. */
  ghost predicate Respects(lat: bool, i: Inst<Reg>, dj: nat, k: Inst<Reg>, dk: nat) {
    && (Meets(i.outs, k) ==> dj + (if lat then i.latency else 1) <= dk)
    && (Meets(i.ins, k) ==> dj <= dk)
    && (i.isBranch ==> dj + 1 <= dk)
  }

  ghost predicate Satisfies(lat: bool, t: Trace, d: seq<nat>) {
    |d| == |t| && forall j, k :: 0 <= j < k < |t| ==> Respects(lat, t[j], d[j], t[k], d[k])
  }

  /** The depth table is at least what instruction `j` demands of whoever touches `x`. */
  lemma {:induction false} DepthsCover(lat: bool, t: Trace, j: nat, x: Reg)
    requires j < |t|
    ensures var s := DepthRun(lat, t);
      && (x in t[j].outs ==> s.of[j] + Weight(lat, t[j]) <= Get(s.depth, x))
      && (x in t[j].ins ==> s.of[j] <= Get(s.depth, x))
      && (t[j].isBranch ==> s.of[j] + 1 <= s.branch)
  {
    var n := |t| - 1;
    DepthStepAt(lat, DepthRun(lat, t[..n]), t[n], x);
    if j < n { DepthsCover(lat, t[..n], j, x); }
  }

  lemma NextRespects(lat: bool, t: Trace, j: nat)
    requires j < |t| - 1
    ensures var d := DepthRun(lat, t).of; Respects(lat, t[j], d[j], t[|t| - 1], d[|t| - 1])
  {
    hide MaxDepth, SetAll;
    var n := |t| - 1;
    var s, d := DepthRun(lat, t[..n]), DepthRun(lat, t).of;
    assert d[j] == s.of[j] && t[..n][j] == t[j];
    DepthsCover(lat, t[..n], j, Arch(""));
    forall x | Touches(t[n], x)
      ensures x in t[j].outs ==> d[j] + Weight(lat, t[j]) <= d[n]
      ensures x in t[j].ins ==> d[j] <= d[n]
    {
      DepthsCover(lat, t[..n], j, x);
      DepthStepAt(lat, s, t[n], x);
    }
  }

  /** The depths computed meet every constraint. */
  lemma {:induction false} DepthsSatisfy(lat: bool, t: Trace)
    ensures Satisfies(lat, t, DepthRun(lat, t).of)
  {
    var d := DepthRun(lat, t).of;
    forall j, k | 0 <= j < k < |t| ensures Respects(lat, t[j], d[j], t[k], d[k]) {
      DepthsPrefix(lat, t, k + 1);
      assert d[j] == d[..k + 1][j] && d[k] == d[..k + 1][k];
      NextRespects(lat, t[..k + 1], j);
    }
  }

  /** The depth of `x` in the table is the one instruction `j` demands. */
  ghost predicate DemandedBy(lat: bool, t: Trace, s: Depths, x: Reg, j: nat)
    requires j < |t| == |s.of|
  {
    || (x in t[j].outs && Get(s.depth, x) == s.of[j] + Weight(lat, t[j]))
    || (x in t[j].ins && Get(s.depth, x) == s.of[j])
  }

  ghost predicate BranchDemandedBy(t: Trace, s: Depths, j: nat)
    requires j < |t| == |s.of|
  {
    t[j].isBranch && s.branch == s.of[j] + 1
  }

  /** Every non-zero entry of the depth table is demanded by some instruction. */
  lemma {:induction false} DepthsDemanded(lat: bool, t: Trace, x: Reg) returns (j: nat)
    ensures var s := DepthRun(lat, t);
      Get(s.depth, x) == 0 || (j < |t| && DemandedBy(lat, t, s, x, j))
  {
    j := 0;
    if t != [] {
      var n := |t| - 1;
      DepthStepAt(lat, DepthRun(lat, t[..n]), t[n], x);
      if Touches(t[n], x) { j := n; } else { j := DepthsDemanded(lat, t[..n], x); }
    }
  }

  lemma {:induction false} BranchDemanded(lat: bool, t: Trace) returns (j: nat)
    ensures var s := DepthRun(lat, t);
      s.branch == 0 || (j < |t| && BranchDemandedBy(t, s, j))
  {
    j := 0;
    if t != [] {
      var n := |t| - 1;
      if t[n].isBranch { j := n; } else { j := BranchDemanded(lat, t[..n]); }
    }
  }

  /** The next instruction is no deeper than the constraints force it to be. */
  lemma NextDepthForced(lat: bool, t: Trace, e: seq<nat>)
    requires t != [] && Satisfies(lat, t, e)
    requires forall k :: 0 <= k < |t| - 1 ==> DepthRun(lat, t[..|t| - 1]).of[k] <= e[k]
    ensures InstDepth(DepthRun(lat, t[..|t| - 1]), t[|t| - 1]) <= e[|t| - 1]
  {
    var n := |t| - 1;
    var p, i := t[..n], t[n];
    var s := DepthRun(lat, p);
    forall x | Touches(i, x) ensures Get(s.depth, x) <= e[n] {
      var j := DepthsDemanded(lat, p, x);
      if Get(s.depth, x) != 0 {
        assert p[j] == t[j];
        assert Respects(lat, t[j], e[j], t[n], e[n]);
      }
    }
    MaxDepthBelow(s.depth, i.ins, e[n]);
    MaxDepthBelow(s.depth, i.outs, e[n]);
    var j := BranchDemanded(lat, p);
    if s.branch != 0 {
      assert p[j] == t[j];
      assert Respects(lat, t[j], e[j], t[n], e[n]);
    }
  }

  /** The depths are the pointwise least assignment that meets every constraint. */
  lemma {:induction false} DepthsLeast(lat: bool, t: Trace, e: seq<nat>)
    ensures Satisfies(lat, t, DepthRun(lat, t).of)
    ensures Satisfies(lat, t, e) ==> forall k :: 0 <= k < |t| ==> DepthRun(lat, t).of[k] <= e[k]
  {
    DepthsSatisfy(lat, t);
    if t != [] && Satisfies(lat, t, e) {
      var n := |t| - 1;
      forall j, k | 0 <= j < k < n
        ensures Respects(lat, t[..n][j], e[..n][j], t[..n][k], e[..n][k])
      {
        assert Respects(lat, t[j], e[j], t[k], e[k]);
      }
      DepthsLeast(lat, t[..n], e[..n]);
      NextDepthForced(lat, t, e);
    }
  }

  /** The level an instruction reaches: one more for a branch. */
  function Level(lat: bool, t: Trace, k: nat): nat
    requires k < |t|
  {
    DepthRun(lat, t).of[k] + if t[k].isBranch then 1 else 0
  }

  lemma LevelPrefix(lat: bool, t: Trace, n: nat, k: nat)
    requires k < n <= |t|
    ensures Level(lat, t[..n], k) == Level(lat, t, k)
  {
    DepthsPrefix(lat, t, n);
    assert DepthRun(lat, t).of[..n][k] == DepthRun(lat, t).of[k];
  }

  /** The reported maximum bounds the level of every instruction ... */
  lemma {:induction false} MaxDepthBounded(lat: bool, t: Trace, k: nat)
    requires k < |t|
    ensures Level(lat, t, k) <= MaxDepthRun(lat, t)
  {
    var n := |t| - 1;
    if k < n {
      MaxDepthBounded(lat, t[..n], k);
      LevelPrefix(lat, t, n, k);
    }
  }

  /** ... and is the level of one of them, unless no level exceeds 1. */
  lemma {:induction false} MaxDepthAttained(lat: bool, t: Trace) returns (k: nat)
    ensures MaxDepthRun(lat, t) == 1 || (k < |t| && MaxDepthRun(lat, t) == Level(lat, t, k))
  {
    k := 0;
    if t != [] {
      var n := |t| - 1;
      if MaxDepthRun(lat, t) != MaxDepthRun(lat, t[..n]) { k := n; }
      else if MaxDepthRun(lat, t) != 1 {
        k := MaxDepthAttained(lat, t[..n]);
        LevelPrefix(lat, t, n, k);
      }
    }
  }

  // ---------- renaming against not renaming ----------

  /** Depths that are right without renaming are also right with it. */
  lemma UnrenamedSatisfies(lat: bool, regs: seq<string>, trace: seq<Inst<string>>, d: seq<nat>)
    requires Closed(regs, trace) && Satisfies(lat, Located(regs, trace, false), d)
    ensures Satisfies(lat, Located(regs, trace, true), d)
  {
    var p, a := Located(regs, trace, true), Located(regs, trace, false);
    forall j, k | 0 <= j < k < |trace| ensures Respects(lat, p[j], d[j], p[k], d[k]) {
      assert Respects(lat, a[j], d[j], a[k], d[k]);
      MeetsMapped(regs, trace, j, k);
    }
  }

  /** Two renamed instructions share a register only if the original ones share its owner. */
  lemma MeetsMapped(regs: seq<string>, trace: seq<Inst<string>>, j: nat, k: nat)
    requires Closed(regs, trace) && j < |trace| && k < |trace|
    ensures var p, a := Located(regs, trace, true), Located(regs, trace, false);
      && (Meets(p[j].ins, p[k]) ==> Meets(a[j].ins, a[k]))
      && (Meets(p[j].outs, p[k]) ==> Meets(a[j].outs, a[k]))
  {
    var p, a := Located(regs, trace, true), Located(regs, trace, false);
    forall x | Touches(p[j], x) && Touches(p[k], x)
      ensures x in p[j].ins ==> Meets(a[j].ins, a[k])
      ensures x in p[j].outs ==> Meets(a[j].outs, a[k])
    {
      TouchedOwner(regs, trace, j, x);
      TouchedOwner(regs, trace, k, x);
      var r := Log(regs, trace)[x.index];
      KeepsNames(trace[j], r);
      KeepsNames(trace[k], r);
      assert Touches(a[k], Arch(r));
    }
  }

  lemma KeepsNames(i: Inst<string>, r: string)
    ensures r in i.ins <==> Arch(r) in KeepNames(i).ins
    ensures r in i.outs <==> Arch(r) in KeepNames(i).outs
  {
    if r in i.ins {
      var m :| 0 <= m < |i.ins| && i.ins[m] == r;
      assert KeepNames(i).ins[m] == Arch(r);
    }
    if r in i.outs {
      var m :| 0 <= m < |i.outs| && i.outs[m] == r;
      assert KeepNames(i).outs[m] == Arch(r);
    }
  }

  /** Renaming never makes an instruction deeper. */
  lemma RenamingNeverDeeper(lat: bool, regs: seq<string>, trace: seq<Inst<string>>, k: nat)
    requires Closed(regs, trace) && k < |trace|
    ensures DepthRun(lat, Located(regs, trace, true)).of[k] <= DepthRun(lat, Located(regs, trace, false)).of[k]
  {
    DepthsSatisfy(lat, Located(regs, trace, false));
    UnrenamedSatisfies(lat, regs, trace, DepthRun(lat, Located(regs, trace, false)).of);
    DepthsLeast(lat, Located(regs, trace, true), DepthRun(lat, Located(regs, trace, false)).of);
  }

  // ---------- edges ----------

  datatype Kind = Raw | Waw | War | Control

  /** Instructions are numbered from 1. */
  datatype Edge = Edge(src: nat, dst: nat, kind: Kind)

  function Writers(t: Trace): map<Reg, nat> {
    if t == [] then map[] else SetAll(Writers(t[..|t| - 1]), t[|t| - 1].outs, |t|)
  }

  function Readers(t: Trace): map<Reg, nat> {
    if t == [] then map[] else SetAll(Readers(t[..|t| - 1]), t[|t| - 1].ins, |t|)
  }

  function LastBranch(t: Trace): (b: nat)
    ensures b <= |t|
  {
    if t == [] then 0 else if t[|t| - 1].isBranch then |t| else LastBranch(t[..|t| - 1])
  }

  function RegEdges(last: map<Reg, nat>, rs: seq<Reg>, id: nat, kind: Kind): seq<Edge> {
    if rs == [] then []
    else
      var n := |rs| - 1;
      RegEdges(last, rs[..n], id, kind) + if rs[n] in last then [Edge(last[rs[n]], id, kind)] else []
  }

  lemma {:induction false} RegEdgesFrom(last: map<Reg, nat>, rs: seq<Reg>, id: nat, kind: Kind, e: Edge)
    returns (x: Reg)
    requires e in RegEdges(last, rs, id, kind)
    ensures e.dst == id && e.kind == kind && x in rs && x in last && last[x] == e.src
  {
    var n := |rs| - 1;
    if rs[n] in last && e == Edge(last[rs[n]], id, kind) { x := rs[n]; }
    else { x := RegEdgesFrom(last, rs[..n], id, kind, e); }
  }

  lemma {:induction false} RegEdgesHas(last: map<Reg, nat>, rs: seq<Reg>, id: nat, kind: Kind, x: Reg)
    requires x in rs && x in last
    ensures Edge(last[x], id, kind) in RegEdges(last, rs, id, kind)
  {
    var n := |rs| - 1;
    if rs[n] != x { RegEdgesHas(last, rs[..n], id, kind, x); }
  }

  function ControlEdges(branch: nat, lastInst: nat, i: Inst<Reg>, id: nat): seq<Edge> {
    (if i.isBranch && branch != 0 then [Edge(branch, id, Control)] else []) +
    (if branch != 0 && branch == lastInst then [Edge(branch, id, Control)] else [])
  }

  /** What the analysis remembers of the instructions it has read. */
  datatype Last = Last(writer: map<Reg, nat>, reader: map<Reg, nat>, branch: nat, inst: nat)

  function LastRun(t: Trace): Last {
    Last(Writers(t), Readers(t), LastBranch(t), |t|)
  }

  function RegisterEdges(l: Last, i: Inst<Reg>, id: nat): seq<Edge> {
    RegEdges(l.writer, i.ins, id, Raw) + RegEdges(l.writer, i.outs, id, Waw) + RegEdges(l.reader, i.outs, id, War)
  }

  /** The edges into instruction `i`, numbered `id`. */
  function EdgesInto(l: Last, i: Inst<Reg>, id: nat): seq<Edge> {
    RegisterEdges(l, i, id) + ControlEdges(l.branch, l.inst, i, id)
  }

  function EdgesAt(t: Trace, k: nat): seq<Edge>
    requires k < |t|
  {
    EdgesInto(LastRun(t[..k]), t[k], k + 1)
  }

  function Edges(t: Trace): seq<Edge> {
    if t == [] then [] else Edges(t[..|t| - 1]) + EdgesAt(t, |t| - 1)
  }

  /** The writer on record for `x` is the latest instruction that has `x` among its outputs. */
  lemma {:induction false} WritersExact(t: Trace, x: Reg)
    ensures x in Writers(t) <==> exists j :: 0 <= j < |t| && x in t[j].outs
    ensures x in Writers(t) ==> 0 < Writers(t)[x] <= |t| && x in t[Writers(t)[x] - 1].outs
    ensures x in Writers(t) ==> forall i :: Writers(t)[x] <= i < |t| ==> x !in t[i].outs
  {
    if t != [] {
      var n := |t| - 1;
      WritersExact(t[..n], x);
      SetAllAt(Writers(t[..n]), t[n].outs, |t|, x);
      assert forall j :: 0 <= j < n ==> t[..n][j] == t[j];
    }
  }

  lemma {:induction false} ReadersExact(t: Trace, x: Reg)
    ensures x in Readers(t) <==> exists j :: 0 <= j < |t| && x in t[j].ins
    ensures x in Readers(t) ==> 0 < Readers(t)[x] <= |t| && x in t[Readers(t)[x] - 1].ins
    ensures x in Readers(t) ==> forall i :: Readers(t)[x] <= i < |t| ==> x !in t[i].ins
  {
    if t != [] {
      var n := |t| - 1;
      ReadersExact(t[..n], x);
      SetAllAt(Readers(t[..n]), t[n].ins, |t|, x);
      assert forall j :: 0 <= j < n ==> t[..n][j] == t[j];
    }
  }

  lemma {:induction false} LastBranchExact(t: Trace)
    ensures LastBranch(t) != 0 ==> t[LastBranch(t) - 1].isBranch
  {
    if t != [] { LastBranchExact(t[..|t| - 1]); }
  }

  /** Where an edge into an instruction comes from. */
  lemma EdgesIntoFrom(l: Last, i: Inst<Reg>, id: nat, e: Edge) returns (x: Reg)
    requires e in EdgesInto(l, i, id)
    ensures e.dst == id
    ensures e.kind == Raw ==> x in i.ins && x in l.writer && l.writer[x] == e.src
    ensures e.kind == Waw ==> x in i.outs && x in l.writer && l.writer[x] == e.src
    ensures e.kind == War ==> x in i.outs && x in l.reader && l.reader[x] == e.src
    ensures e.kind == Control ==> e.src == l.branch != 0
  {
    x := Arch("");
    if e in RegEdges(l.writer, i.ins, id, Raw) { x := RegEdgesFrom(l.writer, i.ins, id, Raw, e); }
    else if e in RegEdges(l.writer, i.outs, id, Waw) { x := RegEdgesFrom(l.writer, i.outs, id, Waw, e); }
    else if e in RegEdges(l.reader, i.outs, id, War) { x := RegEdgesFrom(l.reader, i.outs, id, War, e); }
    else { assert e in ControlEdges(l.branch, l.inst, i, id); }
  }

  ghost predicate Drawn(t: Trace, e: Edge) {
    0 < e.dst <= |t| && e in EdgesAt(t, e.dst - 1)
  }

  lemma DrawnPrefix(t: Trace, e: Edge)
    requires t != []
    ensures Drawn(t, e) <==> Drawn(t[..|t| - 1], e) || e in EdgesAt(t, |t| - 1)
  {
    hide RegEdges, Writers, Readers, LastBranch;
    var n := |t| - 1;
    if e in EdgesAt(t, n) { var _ := EdgesIntoFrom(LastRun(t[..n]), t[n], n + 1, e); }
    if 0 < e.dst <= n { assert t[..n][..e.dst - 1] == t[..e.dst - 1]; }
  }

  /** All edges, instruction by instruction. */
  lemma {:induction false} EdgesByTarget(t: Trace, e: Edge)
    ensures e in Edges(t) <==> Drawn(t, e)
  {
    if t != [] {
      EdgesByTarget(t[..|t| - 1], e);
      DrawnPrefix(t, e);
    }
  }

  /** What an edge says about the instructions it joins. */
  lemma EdgeMeaning(t: Trace, e: Edge) returns (x: Reg)
    requires e in Edges(t)
    ensures 0 < e.src < e.dst <= |t|
    ensures e.kind == Raw ==> x in t[e.dst - 1].ins && x in t[e.src - 1].outs
    ensures e.kind == Waw ==> x in t[e.dst - 1].outs && x in t[e.src - 1].outs
    ensures e.kind == War ==> x in t[e.dst - 1].outs && x in t[e.src - 1].ins
    ensures e.kind == Control ==> t[e.src - 1].isBranch
  {
    hide Edges, Writers, Readers, LastBranch, RegEdges;
    EdgesByTarget(t, e);
    var p := t[..e.dst - 1];
    x := EdgesIntoFrom(LastRun(p), t[e.dst - 1], e.dst, e);
    WritersExact(p, x);
    ReadersExact(p, x);
    LastBranchExact(p);
  }

  /** With renaming on there is no output or anti-dependence edge. */
  lemma NoFalseDependences(regs: seq<string>, trace: seq<Inst<string>>, e: Edge)
    requires Closed(regs, trace) && e in Edges(Located(regs, trace, true))
    ensures e.kind == Raw || e.kind == Control
  {
    hide *;
    var x := EdgeMeaning(Located(regs, trace, true), e);
    if e.kind == Waw { SingleAssignment(regs, trace, e.src - 1, e.dst - 1, x); }
    if e.kind == War { ReadersHoldOldRegisters(regs, trace, e.src - 1, e.dst - 1, x); }
  }

  /** What an instruction reads was allocated before it, so no later one writes it. */
  lemma ReadersHoldOldRegisters(regs: seq<string>, trace: seq<Inst<string>>, j: nat, k: nat, x: Reg)
    requires Closed(regs, trace) && j <= k < |trace| && x in Located(regs, trace, true)[j].ins
    ensures x !in Located(regs, trace, true)[k].outs
  {
    var t := Located(regs, trace, true);
    var m :| 0 <= m < |t[j].ins| && t[j].ins[m] == x;
    LogOrder(regs, trace, j, k);
    if x in t[k].outs { OutsAreFresh(Log(regs, trace[..k]), trace[k], x); }
  }

  /** With renaming on there is a read-after-write edge from `j` to `k` exactly when `k` reads some
      architectural register of which `j` is the latest earlier writer. */
  lemma RawEdgesExact(regs: seq<string>, trace: seq<Inst<string>>, j: nat, k: nat)
    requires Closed(regs, trace) && j < k < |trace|
    ensures Edge(j + 1, k + 1, Raw) in Edges(Located(regs, trace, true))
       <==> exists r :: r in trace[k].ins && LatestWriter(trace, j, k, r)
  {
    hide *;
    if Edge(j + 1, k + 1, Raw) in Edges(Located(regs, trace, true)) {
      var x := EdgeMeaning(Located(regs, trace, true), Edge(j + 1, k + 1, Raw));
      var r := AliasOfInput(regs, trace, k, x);
      AliasWriterIsLatest(regs, trace, j, k, r);
    }
    if r :| r in trace[k].ins && LatestWriter(trace, j, k, r) {
      RawEdgeDrawn(regs, trace, j, k, r);
    }
  }

  lemma AliasOfInput(regs: seq<string>, trace: seq<Inst<string>>, k: nat, x: Reg) returns (r: string)
    requires Closed(regs, trace) && k < |trace| && x in Located(regs, trace, true)[k].ins
    ensures r in trace[k].ins && r in Log(regs, trace[..k]) && x == Alias(Log(regs, trace[..k]), r)
  {
    var i := Located(regs, trace, true)[k];
    var m :| 0 <= m < |i.ins| && i.ins[m] == x;
    r := trace[k].ins[m];
  }

  /** The writer on record for the alias of `r` is the latest writer of `r`. */
  lemma WriterOnRecord(regs: seq<string>, trace: seq<Inst<string>>, j: nat, k: nat, r: string)
    requires Closed(regs, trace) && j < k < |trace|
    requires r in trace[k].ins && LatestWriter(trace, j, k, r)
    ensures var x, w := Alias(Log(regs, trace[..k]), r), Writers(Located(regs, trace, true)[..k]);
      x in Located(regs, trace, true)[k].ins && x in w && w[x] == j + 1
  {
    hide Alias;
    hide Writers, Log;
    var t := Located(regs, trace, true);
    LatestWritesAlias(regs, trace, j, k, r);
    var x := Alias(Log(regs, trace[..k]), r);
    WritersExact(t[..k], x);
    assert x in t[..k][j].outs;
    SingleAssignment(regs, trace, j, Writers(t[..k])[x] - 1, x);
    var m :| 0 <= m < |trace[k].ins| && trace[k].ins[m] == r;
    assert t[k].ins[m] == x;
  }

  lemma RawEdgeDrawn(regs: seq<string>, trace: seq<Inst<string>>, j: nat, k: nat, r: string)
    requires Closed(regs, trace) && j < k < |trace|
    requires r in trace[k].ins && LatestWriter(trace, j, k, r)
    ensures Edge(j + 1, k + 1, Raw) in Edges(Located(regs, trace, true))
  {
    hide Edges, RegEdges, ControlEdges, Writers, Readers, LastBranch, Log, Located, Alias, LatestWriter;
    var t, e := Located(regs, trace, true), Edge(j + 1, k + 1, Raw);
    WriterOnRecord(regs, trace, j, k, r);
    RegEdgesHas(Writers(t[..k]), t[k].ins, k + 1, Raw, Alias(Log(regs, trace[..k]), r));
    assert e in RegisterEdges(LastRun(t[..k]), t[k], k + 1);
    assert Drawn(t, e);
    EdgesByTarget(t, e);
  }

  // ---------- which edges are drawn ----------

  /** Instruction `j` is the latest one before `k` that has `x` among its outputs, or its inputs. */
  ghost predicate LatestWith(t: Trace, j: nat, k: nat, x: Reg, outputs: bool)
    requires j < k <= |t|
  {
    && x in (if outputs then t[j].outs else t[j].ins)
    && forall i :: j < i < k ==> x !in (if outputs then t[i].outs else t[i].ins)
  }

  lemma WriterIs(t: Trace, j: nat, x: Reg)
    requires j < |t|
    ensures x in Writers(t) && Writers(t)[x] == j + 1 <==> LatestWith(t, j, |t|, x, true)
  {
    WritersExact(t, x);
  }

  lemma ReaderIs(t: Trace, j: nat, x: Reg)
    requires j < |t|
    ensures x in Readers(t) && Readers(t)[x] == j + 1 <==> LatestWith(t, j, |t|, x, false)
  {
    ReadersExact(t, x);
  }

  lemma LatestBefore(t: Trace, j: nat, k: nat, x: Reg, outputs: bool)
    requires j < k <= |t|
    ensures LatestWith(t[..k], j, k, x, outputs) <==> LatestWith(t, j, k, x, outputs)
  {
    assert forall i :: 0 <= i < k ==> t[..k][i] == t[i];
  }

  lemma {:induction false} LastBranchIs(t: Trace, j: nat)
    requires j < |t|
    ensures LastBranch(t) == j + 1 <==> t[j].isBranch && forall i :: j < i < |t| ==> !t[i].isBranch
  {
    var n := |t| - 1;
    if j < n {
      LastBranchIs(t[..n], j);
      assert forall i :: 0 <= i < n ==> t[..n][i] == t[i];
    }
  }

  // ---------- how many edges are drawn ----------

  /** How often an edge is drawn. */
  function Times(es: seq<Edge>, e: Edge): nat {
    if es == [] then 0 else Times(es[..|es| - 1], e) + if es[|es| - 1] == e then 1 else 0
  }

  lemma {:induction false} TimesConcat(a: seq<Edge>, b: seq<Edge>, e: Edge)
    ensures Times(a + b, e) == Times(a, e) + Times(b, e)
  {
    if b == [] {
      assert a + b == a;
    } else {
      var n := |b| - 1;
      assert (a + b)[..|a| + n] == a + b[..n];
      TimesConcat(a, b[..n], e);
    }
  }

  lemma {:induction false} TimesNone(es: seq<Edge>, e: Edge)
    ensures Times(es, e) == 0 <==> e !in es
  {
    if es != [] {
      var n := |es| - 1;
      TimesNone(es[..n], e);
      assert es == es[..n] + [es[n]];
    }
  }

  /** The operands of `k` of which `j` is the latest writer, or reader. */
  ghost function Operands(t: Trace, j: nat, k: nat, rs: seq<Reg>, outputs: bool): set<nat>
    requires j < k <= |t|
  {
    set p: nat | p < |rs| && LatestWith(t, j, k, rs[p], outputs)
  }

  /** The operands whose record is `src`. */
  ghost function Recorded(last: map<Reg, nat>, rs: seq<Reg>, src: nat): set<nat> {
    set p: nat | p < |rs| && rs[p] in last && last[rs[p]] == src
  }

  lemma {:induction false} RegEdgesTimes(last: map<Reg, nat>, rs: seq<Reg>, id: nat, kind: Kind, src: nat)
    ensures Times(RegEdges(last, rs, id, kind), Edge(src, id, kind)) == |Recorded(last, rs, src)|
  {
    if rs == [] {
      NoneRecorded(last, src);
    } else {
      hide Times, Recorded;
      var n, e := |rs| - 1, Edge(src, id, kind);
      RegEdgesTimes(last, rs[..n], id, kind, src);
      var one := if rs[n] in last then [Edge(last[rs[n]], id, kind)] else [];
      TimesConcat(RegEdges(last, rs[..n], id, kind), one, e);
      TimesOne(one, e);
      RecordedNext(last, rs, src);
    }
  }

  lemma NoneRecorded(last: map<Reg, nat>, src: nat)
    ensures Recorded(last, [], src) == {}
  {
  }

  lemma RecordedNext(last: map<Reg, nat>, rs: seq<Reg>, src: nat)
    requires rs != []
    ensures var n := |rs| - 1;
      |Recorded(last, rs, src)| == |Recorded(last, rs[..n], src)| + if rs[n] in last && last[rs[n]] == src then 1 else 0
  {
    var n := |rs| - 1;
    var before := Recorded(last, rs[..n], src);
    assert forall p :: 0 <= p < n ==> rs[..n][p] == rs[p];
    assert Recorded(last, rs, src) == if rs[n] in last && last[rs[n]] == src then before + {n} else before;
  }

  lemma TimesOne(es: seq<Edge>, e: Edge)
    ensures |es| == 0 ==> Times(es, e) == 0
    ensures |es| == 1 ==> Times(es, e) == if e in es then 1 else 0
  {
  }

  lemma NotOfKind(last: map<Reg, nat>, rs: seq<Reg>, id: nat, kind: Kind, e: Edge)
    requires e.kind != kind || e.dst != id
    ensures Times(RegEdges(last, rs, id, kind), e) == 0
  {
    hide RegEdges, Times;
    TimesNone(RegEdges(last, rs, id, kind), e);
    if e in RegEdges(last, rs, id, kind) { var _ := RegEdgesFrom(last, rs, id, kind, e); }
  }

  lemma ControlEdgesTimes(branch: nat, lastInst: nat, i: Inst<Reg>, id: nat, e: Edge)
    ensures Times(ControlEdges(branch, lastInst, i, id), e) ==
      if e == Edge(branch, id, Control) && branch != 0
      then (if i.isBranch then 1 else 0) + (if branch == lastInst then 1 else 0) else 0
  {
    hide Times;
    var a := if i.isBranch && branch != 0 then [Edge(branch, id, Control)] else [];
    var b := if branch != 0 && branch == lastInst then [Edge(branch, id, Control)] else [];
    TimesConcat(a, b, e);
    TimesOne(a, e);
    TimesOne(b, e);
  }

  /** The edges into an instruction, kind by kind. */
  lemma IntoTimes(l: Last, i: Inst<Reg>, id: nat, e: Edge)
    ensures Times(EdgesInto(l, i, id), e) == match e.kind
      case Raw => Times(RegEdges(l.writer, i.ins, id, Raw), e)
      case Waw => Times(RegEdges(l.writer, i.outs, id, Waw), e)
      case War => Times(RegEdges(l.reader, i.outs, id, War), e)
      case Control => Times(ControlEdges(l.branch, l.inst, i, id), e)
  {
    hide Times, RegEdges, ControlEdges;
    var raw, waw, war := RegEdges(l.writer, i.ins, id, Raw), RegEdges(l.writer, i.outs, id, Waw),
                         RegEdges(l.reader, i.outs, id, War);
    TimesConcat(raw + waw + war, ControlEdges(l.branch, l.inst, i, id), e);
    TimesConcat(raw + waw, war, e);
    TimesConcat(raw, waw, e);
    if e.kind != Raw { NotOfKind(l.writer, i.ins, id, Raw, e); }
    if e.kind != Waw { NotOfKind(l.writer, i.outs, id, Waw, e); }
    if e.kind != War { NotOfKind(l.reader, i.outs, id, War, e); }
    if e.kind != Control { ControlEdgesTimes(l.branch, l.inst, i, id, e); }
  }

  lemma OtherTarget(l: Last, i: Inst<Reg>, id: nat, e: Edge)
    requires e.dst != id
    ensures Times(EdgesInto(l, i, id), e) == 0
  {
    hide Times, RegEdges, ControlEdges, EdgesInto;
    IntoTimes(l, i, id, e);
    NotOfKind(l.writer, i.ins, id, Raw, e);
    NotOfKind(l.writer, i.outs, id, Waw, e);
    NotOfKind(l.reader, i.outs, id, War, e);
    ControlEdgesTimes(l.branch, l.inst, i, id, e);
  }

  lemma {:induction false} TargetTimes(t: Trace, k: nat, e: Edge)
    requires k < |t| && e.dst == k + 1
    ensures Times(Edges(t), e) == Times(EdgesInto(LastRun(t[..k]), t[k], k + 1), e)
  {
    hide Times, EdgesInto, Writers, Readers, LastBranch;
    var n := |t| - 1;
    TimesConcat(Edges(t[..n]), EdgesAt(t, n), e);
    if k < n {
      TargetTimes(t[..n], k, e);
      OtherTarget(LastRun(t[..n]), t[n], n + 1, e);
      assert t[..n][..k] == t[..k];
    } else {
      TimesNone(Edges(t[..n]), e);
      if e in Edges(t[..n]) { var _ := EdgeMeaning(t[..n], e); }
    }
  }

  /** Register edges, renamed or not: one for each operand of `k` of which `j` is the latest writer, or reader. */
  lemma RegisterEdgesCounted(t: Trace, j: nat, k: nat)
    requires j < k < |t|
    ensures Times(Edges(t), Edge(j + 1, k + 1, Raw)) == |Operands(t, j, k, t[k].ins, true)|
    ensures Times(Edges(t), Edge(j + 1, k + 1, Waw)) == |Operands(t, j, k, t[k].outs, true)|
    ensures Times(Edges(t), Edge(j + 1, k + 1, War)) == |Operands(t, j, k, t[k].outs, false)|
  {
    hide Edges, RegEdges, Times, Writers, Readers, LastBranch, LatestWith, EdgesInto;
    var l, i, id := LastRun(t[..k]), t[k], k + 1;
    TargetTimes(t, k, Edge(j + 1, id, Raw));
    TargetTimes(t, k, Edge(j + 1, id, Waw));
    TargetTimes(t, k, Edge(j + 1, id, War));
    IntoTimes(l, i, id, Edge(j + 1, id, Raw));
    IntoTimes(l, i, id, Edge(j + 1, id, Waw));
    IntoTimes(l, i, id, Edge(j + 1, id, War));
    RegEdgesTimes(l.writer, i.ins, id, Raw, j + 1);
    RegEdgesTimes(l.writer, i.outs, id, Waw, j + 1);
    RegEdgesTimes(l.reader, i.outs, id, War, j + 1);
    WritersRecorded(t, j, k, i.ins);
    WritersRecorded(t, j, k, i.outs);
    ReadersRecorded(t, j, k, i.outs);
  }

  lemma WritersRecorded(t: Trace, j: nat, k: nat, rs: seq<Reg>)
    requires j < k < |t|
    ensures Recorded(Writers(t[..k]), rs, j + 1) == Operands(t, j, k, rs, true)
  {
    hide Writers, LatestWith;
    forall x ensures x in Writers(t[..k]) && Writers(t[..k])[x] == j + 1 <==> LatestWith(t, j, k, x, true) {
      WriterIs(t[..k], j, x);
      LatestBefore(t, j, k, x, true);
    }
  }

  lemma ReadersRecorded(t: Trace, j: nat, k: nat, rs: seq<Reg>)
    requires j < k < |t|
    ensures Recorded(Readers(t[..k]), rs, j + 1) == Operands(t, j, k, rs, false)
  {
    hide Readers, LatestWith;
    forall x ensures x in Readers(t[..k]) && Readers(t[..k])[x] == j + 1 <==> LatestWith(t, j, k, x, false) {
      ReaderIs(t[..k], j, x);
      LatestBefore(t, j, k, x, false);
    }
  }

  /** Control edges from `j` to `k`: one if both are branches with none between, and one more if `j` is a
      branch and `k` is behind it. */
  lemma ControlEdgesCounted(t: Trace, j: nat, k: nat)
    requires j < k < |t|
    ensures Times(Edges(t), Edge(j + 1, k + 1, Control)) ==
      if t[j].isBranch && (forall i :: j < i < k ==> !t[i].isBranch)
      then (if t[k].isBranch then 1 else 0) + (if j + 1 == k then 1 else 0) else 0
  {
    hide Edges, RegEdges, Times, Writers, Readers, LastBranch, EdgesInto, ControlEdges;
    var l, e := LastRun(t[..k]), Edge(j + 1, k + 1, Control);
    TargetTimes(t, k, e);
    IntoTimes(l, t[k], k + 1, e);
    LastBranchIs(t[..k], j);
    assert forall i :: 0 <= i < k ==> t[..k][i] == t[i];
    ControlEdgesTimes(LastBranch(t[..k]), k, t[k], k + 1, e);
  }

  // ---------- depths in terms of the original trace ----------

  /** Whoever comes after a branch is deeper, renamed or not. */
  lemma BranchDelays(lat: bool, regs: seq<string>, trace: seq<Inst<string>>, rename: bool, j: nat, k: nat)
    requires (rename ==> Closed(regs, trace)) && j < k < |trace| && trace[j].isBranch
    ensures var d := DepthRun(lat, Located(regs, trace, rename)).of; d[j] + 1 <= d[k]
  {
    hide DepthRun;
    var t := Located(regs, trace, rename);
    var d := DepthRun(lat, t).of;
    DepthsSatisfy(lat, t);
    assert Respects(lat, t[j], d[j], t[k], d[k]);
  }

  /** Whoever reads what another wrote last is deeper by its latency, or by one if latencies are not
      tracked, renamed or not. */
  lemma ReaderDelayed(lat: bool, regs: seq<string>, trace: seq<Inst<string>>, rename: bool, j: nat, k: nat, r: string)
    requires (rename ==> Closed(regs, trace)) && j < k < |trace|
    requires r in trace[k].ins && LatestWriter(trace, j, k, r)
    ensures var d := DepthRun(lat, Located(regs, trace, rename)).of;
      d[j] + (if lat then trace[j].latency else 1) <= d[k]
  {
    hide DepthRun;
    var t := Located(regs, trace, rename);
    var d := DepthRun(lat, t).of;
    DepthsSatisfy(lat, t);
    assert Respects(lat, t[j], d[j], t[k], d[k]);
    if rename {
      WriterOnRecord(regs, trace, j, k, r);
      LatestWritesAlias(regs, trace, j, k, r);
      assert Touches(t[k], Alias(Log(regs, trace[..k]), r));
    } else {
      KeepsNames(trace[j], r);
      KeepsNames(trace[k], r);
      assert Touches(t[k], Arch(r));
    }
  }

  function EdgeWeight(lat: bool, t: Trace, e: Edge): nat
    requires 0 < e.src <= |t|
  {
    match e.kind
    case War => 0
    case Control => 1
    case _ => Weight(lat, t[e.src - 1])
  }

  /** Every edge drawn, renamed or not, goes forward and is honoured by the depths. */
  lemma EdgesHonoured(lat: bool, t: Trace, e: Edge)
    requires e in Edges(t)
    ensures 0 < e.src < e.dst <= |t|
    ensures DepthRun(lat, t).of[e.src - 1] + EdgeWeight(lat, t, e) <= DepthRun(lat, t).of[e.dst - 1]
  {
    hide Edges, DepthRun;
    var x := EdgeMeaning(t, e);
    DepthsSatisfy(lat, t);
    var d := DepthRun(lat, t).of;
    assert Respects(lat, t[e.src - 1], d[e.src - 1], t[e.dst - 1], d[e.dst - 1]);
    assert e.kind != Control ==> Touches(t[e.dst - 1], x);
  }
}
