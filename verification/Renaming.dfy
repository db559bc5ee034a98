/** Register renaming of an instruction trace (tools/rename-x86.py).

    The alias table is determined by an allocation log: the list of architectural
    registers in the order in which physical registers were handed out.  Position `n`
    of the log says which architectural register physical register `n` was handed to,
    so the alias of `r` is the last position at which `r` occurs and the next free
    register is the length of the log. */
module Renaming {

  /** An instruction as already parsed.  `R` is the kind of register name it uses. */
  datatype Inst<R> = Inst(op: string, ins: seq<R>, outs: seq<R>, latency: nat, isBranch: bool)

  /** A register as the analysis names it: by its own name, or "pr<n>". */
  datatype Reg = Arch(name: string) | Phys(index: nat)

  // ---------- alias table ----------

  /** The last position of every element; a later entry overwrites an earlier one. */
  function LastIndex<R(==)>(s: seq<R>): (m: map<R, nat>)
    ensures m.Keys == set x | x in s
    ensures forall x :: x in m ==> m[x] < |s| && s[m[x]] == x
    ensures forall x, k :: x in m && m[x] < k < |s| ==> s[k] != x
  {
    if s == [] then map[]
    else
      var n := |s| - 1;
      assert s == s[..n] + [s[n]];
      LastIndex(s[..n])[s[n] := n]
  }

  lemma LastIndexIs<R>(s: seq<R>, x: R, k: nat)
    requires k < |s| && s[k] == x
    requires forall j :: k < j < |s| ==> s[j] != x
    ensures x in LastIndex(s) && LastIndex(s)[x] == k
  {
  }

  lemma LastIndexConcat<R>(s: seq<R>, t: seq<R>, x: R)
    requires x in s + t
    ensures LastIndex(s + t)[x] == if x in t then |s| + LastIndex(t)[x] else LastIndex(s)[x]
  {
    hide LastIndex;
    var k := if x in t then |s| + LastIndex(t)[x] else LastIndex(s)[x];
    assert (s + t)[k] == x;
    LastIndexIs(s + t, x, k);
  }

  /** Who received each physical register, after running the trace. */
  function Log(regs: seq<string>, trace: seq<Inst<string>>): (log: seq<string>)
    ensures |regs| <= |log| && log[..|regs|] == regs
  {
    if trace == [] then regs
    else var n := |trace| - 1; Log(regs, trace[..n]) + trace[n].outs
  }

  function Alias(log: seq<string>, r: string): (x: Reg)
    requires r in log
    ensures x.Phys? && x.index < |log| && log[x.index] == r
  {
    Phys(LastIndex(log)[r])
  }

  /** Each input is in the alias table when its instruction is reached. */
  ghost predicate Closed(regs: seq<string>, trace: seq<Inst<string>>)
  {
    forall k, r :: 0 <= k < |trace| && r in trace[k].ins ==> r in Log(regs, trace[..k])
  }

  lemma ClosedPrefix(regs: seq<string>, trace: seq<Inst<string>>, n: nat)
    requires Closed(regs, trace) && n <= |trace|
    ensures Closed(regs, trace[..n])
  {
    forall k, r | 0 <= k < n && r in trace[..n][k].ins ensures r in Log(regs, trace[..n][..k]) {
      assert trace[..n][..k] == trace[..k];
    }
  }

  /** Inputs go through the table before the instruction, outputs through the table after it. */
  function RenameInst(log: seq<string>, i: Inst<string>): (x: Inst<Reg>)
    requires forall r :: r in i.ins ==> r in log
    ensures |x.ins| == |i.ins| && |x.outs| == |i.outs|
    ensures SameWork(x, i)
  {
    Inst(i.op,
         seq(|i.ins|, k requires 0 <= k < |i.ins| => Alias(log, i.ins[k])),
         seq(|i.outs|, k requires 0 <= k < |i.outs| => Alias(log + i.outs, i.outs[k])),
         i.latency, i.isBranch)
  }

  /** The two do the same, whatever registers they do it with. */
  ghost predicate SameWork(x: Inst<Reg>, i: Inst<string>) {
    x.op == i.op && x.latency == i.latency && x.isBranch == i.isBranch
  }

  function KeepNames(i: Inst<string>): (x: Inst<Reg>) {
    Inst(i.op,
         seq(|i.ins|, k requires 0 <= k < |i.ins| => Arch(i.ins[k])),
         seq(|i.outs|, k requires 0 <= k < |i.outs| => Arch(i.outs[k])),
         i.latency, i.isBranch)
  }

  /** The trace as the analysis sees it, with renaming on or off. */
  ghost function Located(regs: seq<string>, trace: seq<Inst<string>>, rename: bool): (t: seq<Inst<Reg>>)
    requires rename ==> Closed(regs, trace)
    ensures |t| == |trace|
  {
    seq(|trace|, k requires 0 <= k < |trace| =>
      if rename then RenameInst(Log(regs, trace[..k]), trace[k]) else KeepNames(trace[k]))
  }

  /** Only registers are renamed, and without renaming not even these. */
  lemma LocatedInst(regs: seq<string>, trace: seq<Inst<string>>, rename: bool, k: nat)
    requires (rename ==> Closed(regs, trace)) && k < |trace|
    ensures var x, i := Located(regs, trace, rename)[k], trace[k];
      && x.op == i.op && x.latency == i.latency && x.isBranch == i.isBranch
      && |x.ins| == |i.ins| && |x.outs| == |i.outs|
      && (forall m :: 0 <= m < |i.ins| && !rename ==> x.ins[m] == Arch(i.ins[m]))
      && (forall m :: 0 <= m < |i.outs| && !rename ==> x.outs[m] == Arch(i.outs[m]))
  {
  }

  lemma LocatedPrefix(regs: seq<string>, trace: seq<Inst<string>>, rename: bool, n: nat)
    requires rename ==> Closed(regs, trace)
    requires n <= |trace|
    ensures rename ==> Closed(regs, trace[..n])
    ensures Located(regs, trace[..n], rename) == Located(regs, trace, rename)[..n]
  {
    if rename { ClosedPrefix(regs, trace, n); }
    forall k | 0 <= k < n ensures trace[..n][..k] == trace[..k] {}
  }

  lemma {:induction false} LogGrows(regs: seq<string>, trace: seq<Inst<string>>, j: nat)
    requires j <= |trace|
    ensures |Log(regs, trace[..j])| <= |Log(regs, trace)|
    ensures Log(regs, trace)[..|Log(regs, trace[..j])|] == Log(regs, trace[..j])
    decreases |trace|
  {
    var n := |trace| - 1;
    if j == |trace| {
      assert trace[..j] == trace;
    } else {
      LogGrows(regs, trace[..n], j);
      assert trace[..n][..j] == trace[..j];
    }
  }

  lemma LogStep(regs: seq<string>, trace: seq<Inst<string>>, j: nat)
    requires j < |trace|
    ensures Log(regs, trace[..j + 1]) == Log(regs, trace[..j]) + trace[j].outs
  {
    assert trace[..j + 1][..j] == trace[..j];
  }

  /** Everything one needs about two points of the log, in terms of the final log. */
  lemma LogOrder(regs: seq<string>, trace: seq<Inst<string>>, j: nat, k: nat)
    requires j <= k <= |trace|
    ensures |Log(regs, trace[..j])| <= |Log(regs, trace[..k])|
    ensures Log(regs, trace[..k])[..|Log(regs, trace[..j])|] == Log(regs, trace[..j])
  {
    hide Log;
    LogGrows(regs, trace[..k], j);
    assert trace[..k][..j] == trace[..j];
  }

  /** The alias table is injective and stays below the next free register. */
  lemma AliasInjective(log: seq<string>, r: string, s: string)
    requires r in log && s in log && Alias(log, r) == Alias(log, s)
    ensures r == s && Alias(log, r).index < |log|
  {
  }

  // ---------- which instruction writes which physical register ----------

  /** Every physical register instruction `j` writes was free before it. */
  lemma OutsAreFresh(log: seq<string>, i: Inst<string>, x: Reg)
    requires forall r :: r in i.ins ==> r in log
    requires x in RenameInst(log, i).outs
    ensures x.Phys? && |log| <= x.index < |log| + |i.outs|
    ensures (log + i.outs)[x.index] in i.outs
  {
    var k :| 0 <= k < |i.outs| && RenameInst(log, i).outs[k] == x;
    LastIndexConcat(log, i.outs, i.outs[k]);
  }

  /** A physical register is written by one instruction only. */
  lemma SingleAssignment(regs: seq<string>, trace: seq<Inst<string>>, j: nat, k: nat, x: Reg)
    requires Closed(regs, trace) && j < |trace| && k < |trace|
    requires x in Located(regs, trace, true)[j].outs && x in Located(regs, trace, true)[k].outs
    ensures j == k
  {
    var (a, b) := if j <= k then (j, k) else (k, j);
    OutsAreFresh(Log(regs, trace[..a]), trace[a], x);
    OutsAreFresh(Log(regs, trace[..b]), trace[b], x);
    if a < b {
      LogStep(regs, trace, a);
      LogOrder(regs, trace, a + 1, b);
      assert false;
    }
  }

  ghost predicate LatestWriter(trace: seq<Inst<string>>, j: nat, k: nat, r: string)
    requires j < k <= |trace|
  {
    r in trace[j].outs && forall i :: j < i < k ==> r !in trace[i].outs
  }

  /** Position `n` of the log belongs to the outputs of instruction `j`. */
  lemma LogPosition(regs: seq<string>, trace: seq<Inst<string>>, j: nat, k: nat, n: nat)
    requires j < k <= |trace|
    requires |Log(regs, trace[..j])| <= n < |Log(regs, trace[..j])| + |trace[j].outs|
    ensures n < |Log(regs, trace[..k])|
    ensures Log(regs, trace[..k])[n] == trace[j].outs[n - |Log(regs, trace[..j])|]
  {
    LogStep(regs, trace, j);
    LogOrder(regs, trace, j + 1, k);
    var a, b := Log(regs, trace[..j + 1]), Log(regs, trace[..k]);
    assert b[n] == b[..|a|][n];
  }

  /** A register whose latest log entry belongs to instruction `j` is not written afterwards. */
  lemma NotWrittenSince(regs: seq<string>, trace: seq<Inst<string>>, j: nat, i: nat, k: nat, r: string)
    requires j < i < k <= |trace| && r in Log(regs, trace[..k])
    requires Alias(Log(regs, trace[..k]), r).index < |Log(regs, trace[..j + 1])|
    ensures r !in trace[i].outs
  {
    hide Log, LastIndex;
    if r in trace[i].outs {
      var m :| 0 <= m < |trace[i].outs| && trace[i].outs[m] == r;
      LogOrder(regs, trace, j + 1, i);
      LogPosition(regs, trace, i, k, |Log(regs, trace[..i])| + m);
      assert false;
    }
  }

  lemma AliasWriterIsLatest(regs: seq<string>, trace: seq<Inst<string>>, j: nat, k: nat, r: string)
    requires Closed(regs, trace) && j < k <= |trace| && r in Log(regs, trace[..k])
    requires Alias(Log(regs, trace[..k]), r) in Located(regs, trace, true)[j].outs
    ensures LatestWriter(trace, j, k, r)
  {
    var x := Alias(Log(regs, trace[..k]), r);
    OutsAreFresh(Log(regs, trace[..j]), trace[j], x);
    LogPosition(regs, trace, j, k, x.index);
    LogStep(regs, trace, j);
    forall i | j < i < k ensures r !in trace[i].outs {
      NotWrittenSince(regs, trace, j, i, k, r);
    }
  }

  lemma LatestWritesAlias(regs: seq<string>, trace: seq<Inst<string>>, j: nat, k: nat, r: string)
    requires Closed(regs, trace) && j < k <= |trace| && LatestWriter(trace, j, k, r)
    ensures r in Log(regs, trace[..k])
    ensures Alias(Log(regs, trace[..k]), r) in Located(regs, trace, true)[j].outs
  {
    LogStep(regs, trace, j);
    LatestKeepsAlias(regs, trace, j + 1, k, r);
    var m :| 0 <= m < |trace[j].outs| && trace[j].outs[m] == r;
    assert Located(regs, trace, true)[j].outs[m] == Alias(Log(regs, trace[..j]) + trace[j].outs, r);
  }

  /** The alias of `r` stays the same while nobody writes `r`. */
  lemma {:induction false} LatestKeepsAlias(regs: seq<string>, trace: seq<Inst<string>>, j: nat, k: nat, r: string)
    requires j <= k <= |trace| && r in Log(regs, trace[..j])
    requires forall i :: j <= i < k ==> r !in trace[i].outs
    ensures r in Log(regs, trace[..k])
    ensures Alias(Log(regs, trace[..k]), r) == Alias(Log(regs, trace[..j]), r)
    decreases k
  {
    if j < k {
      LatestKeepsAlias(regs, trace, j, k - 1, r);
      LogStep(regs, trace, k - 1);
      LastIndexConcat(Log(regs, trace[..k - 1]), trace[k - 1].outs, r);
    }
  }

  /** Who a register of the located trace stands for. */
  lemma TouchedOwner(regs: seq<string>, trace: seq<Inst<string>>, k: nat, x: Reg)
    requires Closed(regs, trace) && k < |trace|
    requires Touches(Located(regs, trace, true)[k], x)
    ensures x.Phys? && x.index < |Log(regs, trace)|
    ensures x in Located(regs, trace, true)[k].ins ==> Log(regs, trace)[x.index] in trace[k].ins
    ensures x in Located(regs, trace, true)[k].outs ==> Log(regs, trace)[x.index] in trace[k].outs
  {
    var log, now, next := Log(regs, trace), Log(regs, trace[..k]), Log(regs, trace[..k + 1]);
    LogStep(regs, trace, k);
    LogGrows(regs, trace, k);
    LogGrows(regs, trace, k + 1);
    var i := Located(regs, trace, true)[k];
    if x in i.ins {
      var m :| 0 <= m < |i.ins| && i.ins[m] == x;
      assert x == Alias(now, trace[k].ins[m]);
      assert log[x.index] == log[..|now|][x.index];
    }
    if x in i.outs {
      var m :| 0 <= m < |i.outs| && i.outs[m] == x;
      assert x == Alias(next, trace[k].outs[m]);
      assert log[x.index] == log[..|next|][x.index];
    }
  }

  predicate Touches<R(==)>(i: Inst<R>, x: R) {
    x in i.ins || x in i.outs
  }

  // ---------- meaning ----------

  /** An arbitrary meaning for every instruction: the k-th output value and the new memory,
      from the memory and the input values. */
  datatype Meaning<!M, !V> = Meaning(value: (string, M, seq<V>, nat) -> V, memory: (string, M, seq<V>) -> M)

  datatype State<!R, M, !V> = State(regs: R -> V, mem: M)

  function WriteAll<R(==), V>(regs: R -> V, outs: seq<R>, v: nat -> V): R -> V {
    if outs == [] then regs
    else
      var n := |outs| - 1;
      var prev := WriteAll(regs, outs[..n], v);
      x => if x == outs[n] then v(n) else prev(x)
  }

  function Inputs<R, V>(regs: R -> V, ins: seq<R>): seq<V> {
    seq(|ins|, k requires 0 <= k < |ins| => regs(ins[k]))
  }

  function Exec<R(==), M, V>(sem: Meaning<M, V>, i: Inst<R>, s: State<R, M, V>): State<R, M, V> {
    var args := Inputs(s.regs, i.ins);
    State(WriteAll(s.regs, i.outs, (k: nat) => sem.value(i.op, s.mem, args, k)), sem.memory(i.op, s.mem, args))
  }

  function Run<R(==), M, V>(sem: Meaning<M, V>, t: seq<Inst<R>>, s: State<R, M, V>): State<R, M, V> {
    if t == [] then s
    else var n := |t| - 1; Exec(sem, t[n], Run(sem, t[..n], s))
  }

  lemma {:induction false} WriteAllMisses<R, V>(regs: R -> V, outs: seq<R>, v: nat -> V, x: R)
    requires x !in outs
    ensures WriteAll(regs, outs, v)(x) == regs(x)
  {
    if outs != [] { WriteAllMisses(regs, outs[..|outs| - 1], v, x); }
  }

  /** Writing through an injective table and reading back through it is writing directly. */
  lemma {:induction false} WriteAllThrough<V>(a: string -> V, p: Reg -> V, log: seq<string>,
                                              outs: seq<string>, pouts: seq<Reg>, v: nat -> V, r: string)
    requires r in outs && |pouts| == |outs|
    requires forall k :: 0 <= k < |outs| ==> outs[k] in log && pouts[k] == Alias(log, outs[k])
    ensures WriteAll(p, pouts, v)(Alias(log, r)) == WriteAll(a, outs, v)(r)
  {
    var n := |outs| - 1;
    if outs[n] != r {
      WriteAllThrough(a, p, log, outs[..n], pouts[..n], v, r);
      assert pouts[n] != Alias(log, r);
    }
  }

  /** Reading the physical registers through the alias table gives the architectural registers. */
  ghost predicate Agree<M, V>(log: seq<string>, a: State<string, M, V>, p: State<Reg, M, V>) {
    a.mem == p.mem && forall r :: r in log ==> p.regs(Alias(log, r)) == a.regs(r)
  }

  lemma RenameInstPreserves<M, V>(sem: Meaning<M, V>, log: seq<string>, i: Inst<string>,
                                  a: State<string, M, V>, p: State<Reg, M, V>)
    requires forall r :: r in i.ins ==> r in log
    requires Agree(log, a, p)
    ensures Agree(log + i.outs, Exec(sem, i, a), Exec(sem, RenameInst(log, i), p))
  {
    hide LastIndex, WriteAll;
    var q, log' := RenameInst(log, i), log + i.outs;
    assert Inputs(p.regs, q.ins) == Inputs(a.regs, i.ins);
    var args := Inputs(a.regs, i.ins);
    var v := (k: nat) => sem.value(i.op, a.mem, args, k);
    forall r | r in log' ensures WriteAll(p.regs, q.outs, v)(Alias(log', r)) == WriteAll(a.regs, i.outs, v)(r) {
      LastIndexConcat(log, i.outs, r);
      if r in i.outs {
        WriteAllThrough(a.regs, p.regs, log', i.outs, q.outs, v, r);
      } else {
        WriteAllMisses(a.regs, i.outs, v, r);
        if Alias(log', r) in q.outs { OutsAreFresh(log, i, Alias(log', r)); }
        WriteAllMisses(p.regs, q.outs, v, Alias(log', r));
      }
    }
  }

  /** Renaming preserves meaning. */
  lemma {:induction false} RenamingPreservesMeaning<M, V>(
      sem: Meaning<M, V>, regs: seq<string>, trace: seq<Inst<string>>, a: State<string, M, V>, p: State<Reg, M, V>)
    requires Closed(regs, trace) && Agree(regs, a, p)
    ensures Agree(Log(regs, trace), Run(sem, trace, a), Run(sem, Located(regs, trace, true), p))
  {
    if trace != [] {
      var n := |trace| - 1;
      LocatedPrefix(regs, trace, true, n);
      RenamingPreservesMeaning(sem, regs, trace[..n], a, p);
      RenameInstPreserves(sem, Log(regs, trace[..n]), trace[n], Run(sem, trace[..n], a),
                          Run(sem, Located(regs, trace, true)[..n], p));
    }
  }

  /** Nothing that was live at point `k` is ever overwritten: the final physical registers,
      read through the alias table of any earlier point, give the architectural
      registers of that point. */
  lemma {:induction false} CheckpointsSurvive<M, V>(
      sem: Meaning<M, V>, regs: seq<string>, trace: seq<Inst<string>>, k: nat,
      a: State<string, M, V>, p: State<Reg, M, V>, r: string)
    requires Closed(regs, trace) && Agree(regs, a, p) && k <= |trace| && r in Log(regs, trace[..k])
    ensures Run(sem, Located(regs, trace, true), p).regs(Alias(Log(regs, trace[..k]), r)) ==
      Run(sem, trace[..k], a).regs(r)
    decreases |trace|
  {
    hide Log, Run, Alias, Located, Closed;
    if k == |trace| {
      assert trace[..k] == trace;
      RenamingPreservesMeaning(sem, regs, trace, a, p);
    } else {
      var n := |trace| - 1;
      LocatedPrefix(regs, trace, true, n);
      assert trace[..n][..k] == trace[..k];
      CheckpointsSurvive(sem, regs, trace[..n], k, a, p, r);
      LastKeepsCheckpoint(sem, regs, trace, k, p, r);
    }
  }

  /** The last instruction leaves alone every register that was mapped before it. */
  lemma LastKeepsCheckpoint<M, V>(sem: Meaning<M, V>, regs: seq<string>, trace: seq<Inst<string>>, k: nat,
                                  p: State<Reg, M, V>, r: string)
    requires Closed(regs, trace) && k < |trace| && r in Log(regs, trace[..k])
    ensures var x, t := Alias(Log(regs, trace[..k]), r), Located(regs, trace, true);
      Run(sem, t, p).regs(x) == Run(sem, t[..|t| - 1], p).regs(x)
  {
    hide Log, Alias, RenameInst;
    var n := |trace| - 1;
    var x, t := Alias(Log(regs, trace[..k]), r), Located(regs, trace, true);
    LogOrder(regs, trace, k, n);
    if x in t[n].outs { OutsAreFresh(Log(regs, trace[..n]), trace[n], x); }
    var s := Run(sem, t[..n], p);
    var args := Inputs(s.regs, t[n].ins);
    WriteAllMisses(s.regs, t[n].outs, (m: nat) => sem.value(t[n].op, s.mem, args, m), x);
  }
}
