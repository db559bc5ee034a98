/** The main loop of the renaming tool, one instruction at a time (tools/rename-x86.py). */
module RenameTool {
  import opened Renaming
  import opened Dependence

  class Analyzer {
    const rename: bool
    const trackLatency: bool
    const registers: seq<string>

    var rat: map<string, nat>
    var nextFreeReg: nat
    var lastWriter: map<Reg, nat>
    var lastReader: map<Reg, nat>
    var dependenceDepth: map<Reg, nat>
    var branchDepth: nat
    var maxDepth: nat
    var instDepths: seq<nat>
    var edges: seq<Edge>
    var lastBranch: nat
    var instCount: nat

    /** The instructions processed so far. */
    ghost var trace: seq<Inst<string>>

    ghost function Handed(): seq<string>
      reads this
    {
      if rename then Log(registers, trace) else registers
    }

    ghost predicate ValidTable()
      reads this
    {
      && (rename ==> Closed(registers, trace))
      && rat == LastIndex(Handed()) && nextFreeReg == |Handed()|
    }

    /** Every other variable of the loop is the function of the located trace it is meant to be. */
    ghost predicate Accounts(t: Trace)
      reads this
    {
      && Depths(dependenceDepth, branchDepth, instDepths) == DepthRun(trackLatency, t)
      && maxDepth == MaxDepthRun(trackLatency, t)
      && Last(lastWriter, lastReader, lastBranch, instCount) == LastRun(t)
      && edges == Edges(t)
    }

    ghost predicate Valid()
      reads this
    {
      ValidTable() && Accounts(Located(registers, trace, rename))
    }

    constructor (registers: seq<string>, rename: bool, trackLatency: bool)
      ensures Valid() && trace == []
      ensures this.registers == registers && this.rename == rename && this.trackLatency == trackLatency
    {
      hide Located, Closed, Log, LastIndex, DepthRun, MaxDepthRun, Edges, LastRun;
      this.registers, this.rename, this.trackLatency := registers, rename, trackLatency;
      rat, nextFreeReg := map[], 0;
      lastWriter, lastReader, dependenceDepth := map[], map[], map[];
      branchDepth, maxDepth, instDepths, edges, lastBranch, instCount, trace := 0, 1, [], [], 0, 0, [];
      new;
      NothingYet(registers, rename, trackLatency);
      Allocate(registers, []);
      assert Accounts([]);
      assert ValidTable();
    }

    method LookUp(rs: seq<string>) returns (xs: seq<Reg>)
      requires rename ==> forall r :: r in rs ==> r in rat
      ensures |xs| == |rs|
      ensures forall k :: 0 <= k < |rs| ==> xs[k] == if rename then Phys(rat[rs[k]]) else Arch(rs[k])
    {
      xs := [];
      for k := 0 to |rs|
        invariant |xs| == k
        invariant forall m :: 0 <= m < k ==> xs[m] == if rename then Phys(rat[rs[m]]) else Arch(rs[m])
      {
        xs := xs + [if rename then Phys(rat[rs[k]]) else Arch(rs[k])];
      }
    }

    /** Hands a fresh physical register to every output, in order. */
    method Allocate(outs: seq<string>, ghost log: seq<string>)
      requires rat == LastIndex(log) && nextFreeReg == |log|
      modifies this`rat, this`nextFreeReg
      ensures rat == LastIndex(log + outs) && nextFreeReg == |log + outs|
    {
      hide LastIndex;
      assert log + outs[..0] == log;
      for k := 0 to |outs|
        invariant rat == LastIndex(log + outs[..k]) && nextFreeReg == |log| + k
      {
        LastIndexPush(log + outs[..k], outs[k]);
        assert log + outs[..k + 1] == log + outs[..k] + [outs[k]];
        rat := rat[outs[k] := nextFreeReg];
        nextFreeReg := nextFreeReg + 1;
      }
      assert outs[..|outs|] == outs;
    }

    method Deepest(rs: seq<Reg>) returns (m: nat)
      ensures m == MaxDepth(dependenceDepth, rs)
    {
      m := 0;
      for k := 0 to |rs|
        invariant m == MaxDepth(dependenceDepth, rs[..k])
      {
        assert rs[..k + 1][..k] == rs[..k];
        m := Max(m, Get(dependenceDepth, rs[k]));
      }
      assert rs[..|rs|] == rs;
    }

    method AddEdges(last: map<Reg, nat>, rs: seq<Reg>, id: nat, kind: Kind)
      modifies this`edges
      ensures edges == old(edges) + RegEdges(last, rs, id, kind)
    {
      for k := 0 to |rs|
        invariant edges == old(edges) + RegEdges(last, rs[..k], id, kind)
      {
        assert rs[..k + 1][..k] == rs[..k];
        if rs[k] in last { edges := edges + [Edge(last[rs[k]], id, kind)]; }
      }
      assert rs[..|rs|] == rs;
    }

    method AddControlEdges(i: Inst<Reg>, id: nat)
      modifies this`edges
      ensures edges == old(edges) + ControlEdges(lastBranch, instCount, i, id)
    {
      if i.isBranch && lastBranch != 0 { edges := edges + [Edge(lastBranch, id, Control)]; }
      if lastBranch != 0 && lastBranch == instCount { edges := edges + [Edge(lastBranch, id, Control)]; }
    }

    method NoteReads(rs: seq<Reg>, id: nat, depth: nat)
      modifies this`lastReader, this`dependenceDepth
      ensures lastReader == SetAll(old(lastReader), rs, id)
      ensures dependenceDepth == SetAll(old(dependenceDepth), rs, depth)
    {
      for k := 0 to |rs|
        invariant lastReader == SetAll(old(lastReader), rs[..k], id)
        invariant dependenceDepth == SetAll(old(dependenceDepth), rs[..k], depth)
      {
        assert rs[..k + 1][..k] == rs[..k];
        lastReader := lastReader[rs[k] := id];
        dependenceDepth := dependenceDepth[rs[k] := depth];
      }
      assert rs[..|rs|] == rs;
    }

    method NoteWrites(rs: seq<Reg>, id: nat, depth: nat)
      modifies this`lastWriter, this`dependenceDepth
      ensures lastWriter == SetAll(old(lastWriter), rs, id)
      ensures dependenceDepth == SetAll(old(dependenceDepth), rs, depth)
    {
      for k := 0 to |rs|
        invariant lastWriter == SetAll(old(lastWriter), rs[..k], id)
        invariant dependenceDepth == SetAll(old(dependenceDepth), rs[..k], depth)
      {
        assert rs[..k + 1][..k] == rs[..k];
        dependenceDepth := dependenceDepth[rs[k] := depth];
        lastWriter := lastWriter[rs[k] := id];
      }
      assert rs[..|rs|] == rs;
    }

    /** Takes an instruction through the alias table. */
    method Locate(i: Inst<string>) returns (x: Inst<Reg>)
      requires ValidTable() && (rename ==> forall r :: r in i.ins ==> r in rat)
      modifies this`rat, this`nextFreeReg, this`trace
      ensures ValidTable() && trace == old(trace) + [i]
      ensures Located(registers, trace, rename) == Located(registers, old(trace), rename) + [x]
    {
      hide Log, LastIndex, Located, Closed;
      ghost var log := Handed();
      var ins := LookUp(i.ins);
      if rename { Allocate(i.outs, log); }
      var outs := LookUp(i.outs);
      x := Inst(i.op, ins, outs, i.latency, i.isBranch);
      trace := trace + [i];
      ClosedStep(registers, old(trace), i, rename);
      assert rename ==> x == RenameInst(log, i);
      assert !rename ==> x == KeepNames(i);
    }

    method Measure(x: Inst<Reg>) returns (depth: nat)
      modifies this`branchDepth, this`instDepths
      ensures depth == old(InstDepth(Depths(dependenceDepth, branchDepth, instDepths), x))
      ensures branchDepth == if x.isBranch then depth + 1 else old(branchDepth)
      ensures instDepths == old(instDepths) + [depth]
    {
      var a := Deepest(x.ins);
      var b := Deepest(x.outs);
      depth := Max(Max(a, b), branchDepth);
      if x.isBranch { branchDepth := depth + 1; }
      instDepths := instDepths + [depth];
    }

    method Draw(x: Inst<Reg>, id: nat)
      modifies this`edges
      ensures edges == old(edges) + EdgesInto(Last(lastWriter, lastReader, lastBranch, instCount), x, id)
    {
      hide RegEdges, ControlEdges;
      AddEdges(lastWriter, x.ins, id, Raw);
      AddEdges(lastWriter, x.outs, id, Waw);
      AddEdges(lastReader, x.outs, id, War);
      AddControlEdges(x, id);
    }

    /** The part of the loop body after renaming. */
    method Account(x: Inst<Reg>, ghost t: Trace)
      requires Accounts(t)
      modifies this`lastWriter, this`lastReader, this`dependenceDepth, this`branchDepth, this`maxDepth,
               this`instDepths, this`edges, this`lastBranch, this`instCount
      ensures Accounts(t + [x])
    {
      hide DepthRun, MaxDepthRun, Edges, Writers, Readers, LastBranch, SetAll, EdgesInto, InstDepth;
      NextInst(trackLatency, t, x);
      var id := instCount + 1;
      var depth := Measure(x);
      Draw(x, id);
      if x.isBranch { lastBranch := id; }
      NoteReads(x.ins, id, depth);
      NoteWrites(x.outs, id, depth + if trackLatency then x.latency else 1);
      maxDepth := Max(Max(maxDepth, depth), if x.isBranch then branchDepth else 0);
      instCount := id;
    }

    /** One round of the main loop. */
    method Process(i: Inst<string>)
      requires Valid() && (rename ==> forall r :: r in i.ins ==> r in rat)
      modifies this
      ensures Valid() && trace == old(trace) + [i]
    {
      hide Located, Closed, Log, LastIndex, DepthRun, MaxDepthRun, Edges, LastRun;
      ghost var t := Located(registers, trace, rename);
      var x := Locate(i);
      Account(x, t);
    }
  }

  /** The results before the first instruction. */
  lemma NothingYet(regs: seq<string>, rename: bool, lat: bool)
    ensures LastIndex<string>([]) == map[] && [] + regs == regs
    ensures Closed(regs, []) && Log(regs, []) == regs && Located(regs, [], rename) == []
    ensures DepthRun(lat, []) == Depths(map[], 0, []) && MaxDepthRun(lat, []) == 1
    ensures LastRun([]) == Last(map[], map[], 0, 0) && Edges([]) == []
  {
  }

  lemma LastIndexPush(s: seq<string>, r: string)
    ensures LastIndex(s + [r]) == LastIndex(s)[r := |s|]
  {
    assert (s + [r])[..|s|] == s;
  }

  /** What one more instruction does to each of the accumulated results. */
  lemma NextInst(lat: bool, t: Trace, x: Inst<Reg>)
    ensures DepthRun(lat, t + [x]) == DepthStep(lat, DepthRun(lat, t), x)
    ensures MaxDepthRun(lat, t + [x]) == Max(Max(MaxDepthRun(lat, t), InstDepth(DepthRun(lat, t), x)),
                                             if x.isBranch then DepthRun(lat, t + [x]).branch else 0)
    ensures Edges(t + [x]) == Edges(t) + EdgesInto(LastRun(t), x, |t| + 1)
    ensures LastRun(t + [x]) == Last(SetAll(Writers(t), x.outs, |t| + 1), SetAll(Readers(t), x.ins, |t| + 1),
                                     if x.isBranch then |t| + 1 else LastBranch(t), |t| + 1)
  {
    assert (t + [x])[..|t|] == t;
  }

  lemma ClosedStep(regs: seq<string>, trace: seq<Inst<string>>, i: Inst<string>, rename: bool)
    requires rename ==> Closed(regs, trace) && forall r :: r in i.ins ==> r in Log(regs, trace)
    ensures rename ==> Closed(regs, trace + [i]) && Log(regs, trace + [i]) == Log(regs, trace) + i.outs
    ensures Located(regs, trace + [i], rename)
         == Located(regs, trace, rename) + [if rename then RenameInst(Log(regs, trace), i) else KeepNames(i)]
  {
    var all, n := trace + [i], |trace|;
    assert all[..n] == trace;
    forall k | 0 <= k < n ensures all[..k] == trace[..k] {}
    if rename {
      forall k, r | 0 <= k < |all| && r in all[k].ins ensures r in Log(regs, all[..k]) {
        if k < n { assert r in Log(regs, trace[..k]); }
      }
    }
  }

  /** Depths in terms of the trace: whoever comes after a branch is deeper, and whoever reads what
      another wrote last is deeper by its latency. */
  ghost predicate DelaysKept(lat: bool, trace: seq<Inst<string>>, d: seq<nat>) {
    && |d| == |trace|
    && (forall j, k :: 0 <= j < k < |trace| && trace[j].isBranch ==> d[j] + 1 <= d[k])
    && (forall j, k, r :: 0 <= j < k < |trace| && r in trace[k].ins && LatestWriter(trace, j, k, r) ==>
          d[j] + (if lat then trace[j].latency else 1) <= d[k])
  }

  /** Control edges lead from each branch to the next one, and to the instruction behind it. */
  ghost function ControlBetween(trace: seq<Inst<string>>, j: nat, k: nat): nat
    requires j < k < |trace|
  {
    if trace[j].isBranch && (forall i :: j < i < k ==> !trace[i].isBranch)
    then (if trace[k].isBranch then 1 else 0) + (if j + 1 == k then 1 else 0) else 0
  }

  ghost predicate ControlDrawn(trace: seq<Inst<string>>, edges: seq<Edge>) {
    forall j, k :: 0 <= j < k < |trace| ==>
      Times(edges, Edge(j + 1, k + 1, Control)) == ControlBetween(trace, j, k)
  }

  /** Instruction `k` reads some register that `j` is the latest one to have written. */
  ghost predicate ReadsFrom(trace: seq<Inst<string>>, j: nat, k: nat)
    requires j < k < |trace|
  {
    exists r :: r in trace[k].ins && LatestWriter(trace, j, k, r)
  }

  /** With renaming: an edge to each reader from the latest writer, and none of the other kinds. */
  ghost predicate DependencesDrawn(trace: seq<Inst<string>>, edges: seq<Edge>) {
    && (forall j, k :: 0 <= j < k < |trace| ==> (Edge(j + 1, k + 1, Raw) in edges <==> ReadsFrom(trace, j, k)))
    && (forall e :: e in edges ==> e.kind == Raw || e.kind == Control)
  }

  lemma DelaysMean(registers: seq<string>, rename: bool, lat: bool, trace: seq<Inst<string>>)
    requires rename ==> Closed(registers, trace)
    ensures DelaysKept(lat, trace, DepthRun(lat, Located(registers, trace, rename)).of)
  {
    hide DepthRun, Located, Log, LatestWriter;
    forall j, k | 0 <= j < k < |trace| && trace[j].isBranch
      ensures var d := DepthRun(lat, Located(registers, trace, rename)).of; d[j] + 1 <= d[k]
    {
      BranchDelays(lat, registers, trace, rename, j, k);
    }
    forall j, k, r | 0 <= j < k < |trace| && r in trace[k].ins && LatestWriter(trace, j, k, r)
      ensures var d := DepthRun(lat, Located(registers, trace, rename)).of;
        d[j] + (if lat then trace[j].latency else 1) <= d[k]
    {
      ReaderDelayed(lat, registers, trace, rename, j, k, r);
    }
  }

  lemma ControlMeans(registers: seq<string>, rename: bool, trace: seq<Inst<string>>)
    requires rename ==> Closed(registers, trace)
    ensures ControlDrawn(trace, Edges(Located(registers, trace, rename)))
  {
    hide Edges;
    var t := Located(registers, trace, rename);
    assert forall k :: 0 <= k < |trace| ==> t[k].isBranch == trace[k].isBranch;
    hide Located;
    forall j, k | 0 <= j < k < |trace|
      ensures Times(Edges(t), Edge(j + 1, k + 1, Control)) == ControlBetween(trace, j, k)
    {
      ControlEdgesCounted(t, j, k);
    }
  }

  lemma DependencesMean(registers: seq<string>, trace: seq<Inst<string>>)
    requires Closed(registers, trace)
    ensures DependencesDrawn(trace, Edges(Located(registers, trace, true)))
  {
    hide Edges, Located, LatestWriter, Closed;
    var t := Located(registers, trace, true);
    forall j, k | 0 <= j < k < |trace|
      ensures Edge(j + 1, k + 1, Raw) in Edges(t) <==> ReadsFrom(trace, j, k)
    {
      RawEdgesExact(registers, trace, j, k);
    }
    forall e | e in Edges(t) ensures e.kind == Raw || e.kind == Control {
      NoFalseDependences(registers, trace, e);
    }
  }

  lemma PathMeans(registers: seq<string>, rename: bool, lat: bool, trace: seq<Inst<string>>, k: nat)
    requires rename ==> Closed(registers, trace)
    requires k < |trace|
    ensures var t := Located(registers, trace, rename);
      DepthRun(lat, t).of[k] + (if trace[k].isBranch then 2 else 1) <= MaxDepthRun(lat, t) + 1
  {
    hide DepthRun, MaxDepthRun, Log, Closed;
    MaxDepthBounded(lat, Located(registers, trace, rename), k);
  }

  /** What is reported, in terms of the trace. */
  lemma AnswersMean(registers: seq<string>, rename: bool, lat: bool, trace: seq<Inst<string>>)
    requires rename ==> Closed(registers, trace)
    ensures var t := Located(registers, trace, rename);
      && DelaysKept(lat, trace, DepthRun(lat, t).of) && ControlDrawn(trace, Edges(t))
      && (rename ==> DependencesDrawn(trace, Edges(t)))
      && forall k :: 0 <= k < |trace| ==>
           DepthRun(lat, t).of[k] + (if trace[k].isBranch then 2 else 1) <= MaxDepthRun(lat, t) + 1
  {
    hide DepthRun, MaxDepthRun, Located, Edges, Closed, DelaysKept, ControlDrawn, DependencesDrawn;
    DelaysMean(registers, rename, lat, trace);
    ControlMeans(registers, rename, trace);
    if rename { DependencesMean(registers, trace); }
    forall k | 0 <= k < |trace|
      ensures var t := Located(registers, trace, rename);
        DepthRun(lat, t).of[k] + (if trace[k].isBranch then 2 else 1) <= MaxDepthRun(lat, t) + 1
    {
      PathMeans(registers, rename, lat, trace, k);
    }
  }

  /** The numbers reported for a whole trace. */
  method Analyze(registers: seq<string>, rename: bool, trackLatency: bool, trace: seq<Inst<string>>)
    returns (depths: seq<nat>, edges: seq<Edge>, criticalPath: nat, physicalRegs: nat, table: map<string, nat>)
    requires rename ==> Closed(registers, trace)
    ensures var t := Located(registers, trace, rename);
      && depths == DepthRun(trackLatency, t).of && edges == Edges(t)
      && criticalPath == MaxDepthRun(trackLatency, t) + 1
    ensures DelaysKept(trackLatency, trace, depths) && ControlDrawn(trace, edges)
    ensures rename ==> DependencesDrawn(trace, edges)
    ensures forall k :: 0 <= k < |trace| ==> depths[k] + (if trace[k].isBranch then 2 else 1) <= criticalPath
    ensures table == LastIndex(if rename then Log(registers, trace) else registers)
    ensures physicalRegs == |if rename then Log(registers, trace) else registers|
  {
    hide Located, DepthRun, MaxDepthRun, Edges, LastRun, Log;
    var a := new Analyzer(registers, rename, trackLatency);
    for k := 0 to |trace|
      invariant a.Valid() && a.trace == trace[..k]
      invariant a.registers == registers && a.rename == rename && a.trackLatency == trackLatency
    {
      a.Process(trace[k]);
      assert trace[..k] + [trace[k]] == trace[..k + 1];
    }
    assert trace[..|trace|] == trace;
    AnswersMean(registers, rename, trackLatency, trace);
    return a.instDepths, a.edges, a.maxDepth + 1, a.nextFreeReg, a.rat;
  }
}
