/** When the status of a job only moves forward (archcloud/src/ArchLab/Runner.py, runlab_daemon.py).

    Two things can move it back: a client that times out writes COMPLETED while a daemon is about to
    write STARTED, and a pull that raises is reported as ERROR against the job of an earlier round. */
module JobStatus {
  import opened JobProtocol
  import Q = LocalQueue

  ghost predicate Forward(a: Status, b: Status) {
    a == b || a == Submitted || (a == Started && b != Submitted)
  }

  ghost predicate StepForward(s: State, s': State) {
    forall j :: j in s.records ==> j in s'.records && Forward(s.records[j].status, s'.records[j].status)
  }

  ghost predicate RunForward(s: State, steps: seq<Step>)
    requires Possible(s, steps)
    decreases |steps|
  {
    steps == [] || (StepForward(s, Apply(s, steps[0])) && RunForward(Apply(s, steps[0]), steps[1..]))
  }

  /** A polling client finds that it has waited too long. */
  ghost predicate TimesOut(s: State, step: Step) {
    step.ClientStep? && step.stop && step.j in s.clients && s.clients[step.j].Polling?
  }

  /** A file-system operation raises out of a pull. */
  ghost predicate PullRaises(s: State, step: Step)
    requires Enabled(s, step)
  {
    step.PullStep? && Apply(s, step).q.Of(step.op.p).Raised?
  }

  /** Time-outs only if `t`, pulls that raise only if `p`. */
  ghost predicate Allowed(t: bool, p: bool, s: State, step: Step)
    requires Enabled(s, step)
  {
    (TimesOut(s, step) ==> t) && (PullRaises(s, step) ==> p)
  }

  ghost predicate Permitted(t: bool, p: bool, s: State, steps: seq<Step>)
    requires Possible(s, steps)
    decreases |steps|
  {
    steps == [] || (Allowed(t, p, s, steps[0]) && Permitted(t, p, Apply(s, steps[0]), steps[1..]))
  }

  // ---------- who works on a job ----------

  /** Daemon `d` has job `j`, from its delivery to the end of its round. */
  ghost predicate Works(s: State, d: DaemonId, j: JobId) {
    || (s.q.Of(d).Returned? && s.q.Of(d).got != [] && s.q.Of(d).got[0].body == j)
    || (!s.D(d).stage.Pulling? && s.D(d).job == Some(j))
  }

  /** The client of job `j` has timed out. */
  ghost predicate Late(s: State, j: JobId) {
    j in s.clients && (s.clients[j].TimingOut? || s.clients[j].TimingOutPut? || s.clients[j].TimedOut?)
  }

  /** What the record of a job says while a daemon works on it. */
  predicate Fits(stage: Stage, status: Status) {
    match stage
    case Running(_) => status == Started
    case Rechecking(_) => status == Started
    case StoringResult(_) => status == Started
    case Completing => status == Started
    case CompletingPut(_) => status == Started
    case Failing => status == Submitted || status == Started
    case FailingPut(_) => status == Submitted || status == Started
    case _ => status == Submitted
  }

  ghost predicate OneWorker(s: State) {
    && (forall d, e, j :: Works(s, d, j) && Works(s, e, j) ==> d == e)
    && (forall p :: !s.q.Of(p).Raised?)
  }

  ghost predicate StatusOk(s: State, j: JobId)
    requires j in s.records
  {
    && (forall d :: Works(s, d, j) ==> Fits(s.D(d).stage, s.records[j].status))
    && (!HandedOut(s, j) ==> s.records[j].status == Submitted)
    && (j in s.clients && s.clients[j].SawCompletion() ==> s.records[j].status == Completed)
    && (j in s.clients && s.clients[j].Done? ==> s.records[j].status == Completed)
    && (j in s.clients && s.clients[j].Failed? ==> s.records[j].status == Error)
  }

  ghost predicate StatusesOk(s: State) {
    && OneWorker(s)
    && (forall j :: j in s.records && !Late(s, j) ==> StatusOk(s, j))
  }

  ghost predicate AllOk(s: State) { TokensOk(s) && DataOk(s) && StatusesOk(s) }

  /** Whoever works on a job was handed it, and its record is there. */
  lemma WorksKnown(s: State, d: DaemonId, j: JobId)
    requires TokensOk(s) && DataOk(s) && Works(s, d, j)
    ensures HandedOut(s, j) && j in s.records && j in s.clients && !s.clients[j].BeforePublish()
  {
    if s.q.Of(d).Returned? && s.q.Of(d).got != [] && s.q.Of(d).got[0].body == j {
      assert s.q.Of(d).got[0] in s.q.returned;
    }
    HandedOutPublished(s, j);
    assert ClientOk(s, j);
  }

  // ---------- steps ----------

  /** The status of job `j` moves forward in a step unless its client is late. */
  ghost predicate JobForward(s: State, s': State, j: JobId)
    requires j in s.records
  {
    j in s'.records && Forward(s.records[j].status, s'.records[j].status)
  }

  /** Nothing that matters for the status of jobs other than through clients and records has changed. */
  ghost predicate SameWork(s: State, s': State) {
    s'.daemons == s.daemons && s'.q.pullers == s.q.pullers && s'.q.returned == s.q.returned
  }

  lemma SameWorkers(s: State, s': State)
    requires SameWork(s, s')
    ensures OneWorker(s) ==> OneWorker(s')
    ensures forall d, j :: Works(s', d, j) == Works(s, d, j)
    ensures forall d :: s'.D(d) == s.D(d)
    ensures forall j :: HandedOut(s', j) == HandedOut(s, j)
  {
    assert forall d :: s'.D(d) == s.D(d) && s'.q.Of(d) == s.q.Of(d);
    assert forall d, j :: Works(s', d, j) == Works(s, d, j);
  }

  /** A new record is of a job that nobody has been handed. */
  lemma NewRecordStatus(s: State, j: JobId, name: Q.Name, stop: bool)
    requires AllOk(s) && Enabled(s, ClientStep(j, name, stop)) && j !in s.records
    ensures var s' := ClientNext(s, j, name, stop); j in s'.records ==> StatusOk(s', j)
  {
    hide DaemonOk, ResultOk, OneWorker;
    var s' := ClientNext(s, j, name, stop);
    assert ClientOk(s, j);
    SameWorkers(s, s');
    forall d | Works(s, d, j) ensures false { WorksKnown(s, d, j); }
    if HandedOut(s, j) { HandedOutPublished(s, j); }
  }

  lemma OldRecordStatus(s: State, j: JobId, name: Q.Name, stop: bool)
    requires j in s.clients && !s.clients[j].Over() && name !in s.q.used && ClientOk(s, j)
    requires j in s.records && StatusOk(s, j)
    ensures var s' := ClientNext(s, j, name, stop); !Late(s', j) ==> StatusOk(s', j) && JobForward(s, s', j)
  {
    hide Works, HandedOut, OneWorker, Fits, WasPublished, Produced;
    var s' := ClientNext(s, j, name, stop);
    SameWorkers(s, s');
  }

  /** A client's operation, seen from its own job. */
  lemma ClientKeepsStatus(s: State, j: JobId, name: Q.Name, stop: bool)
    requires AllOk(s) && Enabled(s, ClientStep(j, name, stop))
    ensures var s' := ClientNext(s, j, name, stop); !Late(s', j) && j in s'.records ==>
      StatusOk(s', j) && (j in s.records ==> JobForward(s, s', j))
  {
    assert ClientOk(s, j);
    hide TokensOk, ClientOk, DaemonOk, ResultOk, OneWorker, StatusOk, JobForward;
    if j !in s.records {
      NewRecordStatus(s, j, name, stop);
    } else if !Late(s, j) {
      OldRecordStatus(s, j, name, stop);
    }
  }

  /** A job whose record, client and workers are the same is as before. */
  ghost predicate SameJob(s: State, s': State, k: JobId) {
    && k in s.records && k in s'.records && s'.records[k] == s.records[k]
    && (k in s'.clients <==> k in s.clients) && (k in s.clients ==> s'.clients[k] == s.clients[k])
    && (forall d :: Works(s', d, k) ==> Works(s, d, k) && s'.D(d).stage == s.D(d).stage)
    && (HandedOut(s, k) ==> HandedOut(s', k))
  }

  lemma SameJobKeepsStatus(s: State, s': State, k: JobId)
    requires SameJob(s, s', k)
    ensures (!Late(s, k) ==> StatusOk(s, k)) && !Late(s', k) ==> StatusOk(s', k)
    ensures JobForward(s, s', k)
  {
    if !HandedOut(s', k) { assert !HandedOut(s, k); }
  }

  ghost predicate StepOk(s: State, s': State) {
    StatusesOk(s') && forall j :: j in s.records && !Late(s', j) ==> JobForward(s, s', j)
  }

  lemma ClientKeepsStatuses(s: State, j: JobId, name: Q.Name, stop: bool)
    requires AllOk(s) && Enabled(s, ClientStep(j, name, stop))
    ensures StepOk(s, ClientNext(s, j, name, stop))
  {
    var s' := ClientNext(s, j, name, stop);
    SameWorkers(s, s');
    hide TokensOk, DataOk, NextClient, Works, StatusOk, OneWorker, HandedOut;
    ClientKeepsStatus(s, j, name, stop);
    forall k | k in s'.records && k != j ensures !Late(s', k) ==> StatusOk(s', k) && JobForward(s, s', k) {
      SameJobKeepsStatus(s, s', k);
    }
  }

  /** A stage, the record it fits, and what comes after. */
  lemma StageFits(s: State, j: JobId, stage: Stage, output: nat, raises: bool)
    requires j in s.records && !stage.Pulling? && Fits(stage, s.records[j].status)
    ensures var next := if raises then Handler(stage) else NextStage(s, j, stage, output);
      var records := if raises then s.records else DaemonPut(s.records, j, stage);
      && j in records && Forward(s.records[j].status, records[j].status)
      && (next.Pulling? || Fits(next, records[j].status))
    ensures s.records[j].status != Completed && s.records[j].status != Error
  {
  }

  /** A daemon's operation, seen from its job. */
  lemma DaemonKeepsStatus(s: State, d: DaemonId, output: nat, raises: bool, j: JobId)
    requires AllOk(s) && !s.D(d).stage.Pulling? && s.D(d).job == Some(j)
    ensures var s' := DaemonNext(s, d, output, raises); j in s.records && (!Late(s', j) ==>
      StatusOk(s', j) && JobForward(s, s', j))
  {
    var s' := DaemonNext(s, d, output, raises);
    assert Works(s, d, j);
    WorksKnown(s, d, j);
    assert s.q.Of(d).Idle?;
    hide TokensOk, DataOk, NextStage, Handler, NewRun, DaemonPut, Fits, Forward, HandedOut;
    if !Late(s, j) {
      assert StatusOk(s, j);
      StageFits(s, j, s.D(d).stage, output, raises);
      assert s'.q == s.q && s'.clients == s.clients && HandedOut(s', j);
      forall e | e != d ensures !Works(s', e, j) {
        assert s'.D(e) == s.D(e) && !Works(s, e, j);
      }
    }
  }

  /** A daemon's operation gives no one a new job. */
  lemma DaemonWorks(s: State, d: DaemonId, output: nat, raises: bool)
    requires !s.D(d).stage.Pulling? && s.D(d).job.Some? && s.q.Of(d).Idle?
    ensures var s' := DaemonNext(s, d, output, raises);
      && (forall e :: e != d ==> s'.D(e) == s.D(e)) && (forall k :: HandedOut(s', k) == HandedOut(s, k))
      && (forall e, k :: Works(s', e, k) ==> Works(s, e, k) && (k == s.D(d).job.value || s'.D(e) == s.D(e)))
      && (OneWorker(s) ==> OneWorker(s')) && s'.clients == s.clients
  {
    hide NextStage, Handler, NewRun, DaemonPut;
    var s' := DaemonNext(s, d, output, raises);
    assert forall e :: e != d ==> s'.D(e) == s.D(e);
    forall e, k | Works(s', e, k)
      ensures Works(s, e, k) && (k == s.D(d).job.value || s'.D(e) == s.D(e))
    {
      assert s'.q == s.q;
    }
  }

  lemma BusyDaemon(s: State, d: DaemonId)
    requires TokensOk(s) && !s.D(d).stage.Pulling?
    ensures s.D(d).job.Some? && s.q.Of(d).Idle?
  {
  }

  lemma DaemonKeepsStatuses(s: State, d: DaemonId, output: nat, raises: bool)
    requires AllOk(s) && !s.D(d).stage.Pulling?
    ensures StepOk(s, DaemonNext(s, d, output, raises))
  {
    hide TokensOk, DataOk, NextStage, Handler, NewRun, Works, HandedOut, OneWorker, StatusOk, JobForward;
    BusyDaemon(s, d);
    var s', j := DaemonNext(s, d, output, raises), s.D(d).job.value;
    DaemonWorks(s, d, output, raises);
    DaemonKeepsStatus(s, d, output, raises, j);
    forall k | k in s'.records && k != j ensures !Late(s', k) ==> StatusOk(s', k) && JobForward(s, s', k) {
      SameJobKeepsStatus(s, s', k);
    }
  }

  lemma TakeKeepsStatuses(s: State, d: DaemonId)
    requires AllOk(s) && s.D(d).stage.Pulling? && (s.q.Of(d).Returned? || s.q.Of(d).Raised?)
    ensures StepOk(s, TakePulled(s, d))
  {
    var s' := TakePulled(s, d);
    assert forall e :: e != d ==> s'.D(e) == s.D(e) && s'.q.Of(e) == s.q.Of(e);
    assert forall k :: HandedOut(s', k) == HandedOut(s, k);
    assert forall e, k :: Works(s', e, k) ==> Works(s, e, k);
    forall k | k in s.records && !Late(s', k) ensures StatusOk(s', k) {
      assert StatusOk(s, k);
    }
  }

  /** A pull that does not raise delivers only a job that nobody has been handed. */
  lemma PullWorks(s: State, op: Q.Step, d: DaemonId, j: JobId)
    requires TokensOk(s) && Enabled(s, PullStep(op)) && Works(Apply(s, PullStep(op)), d, j) && !Works(s, d, j)
    ensures d == op.p && !HandedOut(s, j) && s.D(d).stage.Pulling?
  {
    var s' := Apply(s, PullStep(op));
    assert s'.D(d) == s.D(d);
    assert d != op.p ==> s'.q.Of(d) == s.q.Of(d);
    assert op.Remove? && s.q.Of(d).tmp in s.q.dir;
    assert s.q.dir[s.q.Of(d).tmp] == s.q.Of(d).msg;
    InDirNotHandedOut(s, s.q.Of(d).tmp);
  }

  lemma PullKeepsOneWorker(s: State, op: Q.Step)
    requires AllOk(s) && Enabled(s, PullStep(op)) && !PullRaises(s, PullStep(op))
    ensures OneWorker(Apply(s, PullStep(op)))
  {
    var s' := Apply(s, PullStep(op));
    assert forall e :: e != op.p ==> s'.q.Of(e) == s.q.Of(e);
    hide Q.Apply, HandedOut, Works, QueueOk, MessagesOk, HeldOnce, ClientOk, DaemonOk, ResultOk;
    forall d, e, j | Works(s', d, j) && Works(s', e, j) ensures d == e {
      if !Works(s, d, j) { PullWorks(s, op, d, j); if Works(s, e, j) { WorksKnown(s, e, j); } }
      if !Works(s, e, j) { PullWorks(s, op, e, j); if Works(s, d, j) { WorksKnown(s, d, j); } }
    }
  }

  lemma PullKeepsStatuses(s: State, op: Q.Step)
    requires AllOk(s) && Enabled(s, PullStep(op)) && !PullRaises(s, PullStep(op))
    ensures StepOk(s, Apply(s, PullStep(op)))
  {
    var s' := Apply(s, PullStep(op));
    PullKeepsOneWorker(s, op);
    assert forall e :: s'.D(e) == s.D(e);
    assert forall k :: HandedOut(s, k) ==> HandedOut(s', k);
    assert s'.records == s.records && s'.clients == s.clients;
    hide Q.Apply, HandedOut, Fits, Works, QueueOk, MessagesOk, HeldOnce, JobsKnown, DataOk, OneWorker;
    forall k | k in s.records && !Late(s', k) ensures StatusOk(s', k) {
      assert StatusOk(s, k);
      forall d | Works(s', d, k) ensures Fits(s'.D(d).stage, s'.records[k].status) {
        if !Works(s, d, k) { PullWorks(s, op, d, k); PullingFits(s.D(d).stage, s.records[k].status); }
      }
    }
  }

  lemma PullingFits(stage: Stage, status: Status)
    requires stage.Pulling? && status == Submitted
    ensures Fits(stage, status)
  {
  }

  lemma SubmitKeepsStatuses(s: State, step: Step)
    requires AllOk(s) && Enabled(s, step) && (step.Submit? || step.Subscribe?)
    ensures StepOk(s, Apply(s, step))
  {
    var s' := Apply(s, step);
    SameWorkers(s, s');
    hide TokensOk, Works, StatusOk, OneWorker, HandedOut;
    forall k | k in s'.records ensures !Late(s', k) ==> StatusOk(s', k) && JobForward(s, s', k) {
      SameJobKeepsStatus(s, s', k);
    }
  }

  /** Without a raising pull every step keeps all this, and moves the status of each job whose client
      is not late forward. */
  lemma StepKeepsStatuses(s: State, step: Step)
    requires AllOk(s) && Enabled(s, step) && !PullRaises(s, step)
    ensures AllOk(Apply(s, step)) && StepOk(s, Apply(s, step))
  {
    StepKeepsTokens(s, step);
    StepKeepsData(s, step);
    hide AllOk, StepOk, ClientNext, DaemonNext, TakePulled, PullRaises;
    match step
    case ClientStep(j, name, stop) => ClientKeepsStatuses(s, j, name, stop);
    case PullStep(op) => PullKeepsStatuses(s, op);
    case DaemonStep(d, output, raises) =>
      if s.D(d).stage.Pulling? { TakeKeepsStatuses(s, d); } else { DaemonKeepsStatuses(s, d, output, raises); }
    case _ => SubmitKeepsStatuses(s, step);
  }

  // ---------- every run ----------

  lemma InitStatuses()
    ensures AllOk(INIT) && forall j :: !Late(INIT, j)
  {
    InitInvariants();
  }

  /** Only a time-out makes a client late. */
  lemma NobodyLate(p: bool, s: State, step: Step)
    requires Enabled(s, step) && Allowed(false, p, s, step) && forall j :: !Late(s, j)
    ensures forall j :: !Late(Apply(s, step), j)
  {
    hide Q.Apply, NextStage, DaemonPut, NewRun, ClientPut;
    var s' := Apply(s, step);
    forall j ensures !Late(s', j) {
      assert !Late(s, j);
      if step.ClientStep? && step.j == j { assert s'.clients[j] == NextClient(s, j, s.clients[j], step.stop); }
    }
  }

  /** The job is completed, unless its client has given up waiting. */
  ghost predicate CompletedOrLate(s: State, j: JobId) {
    Late(s, j) || (j in s.records && s.records[j].status == Completed)
  }

  lemma LateStays(s: State, step: Step, j: JobId)
    requires AllOk(s) && Enabled(s, step) && Late(s, j)
    ensures Late(Apply(s, step), j)
  {
    hide Q.Apply, NextStage, DaemonPut, NewRun, ClientPut, TokensOk, StatusesOk, DaemonOk, ResultOk;
    assert ClientOk(s, j);
  }

  lemma CompletedStays(s: State, step: Step, j: JobId)
    requires AllOk(s) && Enabled(s, step) && !PullRaises(s, step) && CompletedOrLate(s, j)
    ensures CompletedOrLate(Apply(s, step), j)
  {
    hide AllOk, Late, Enabled, Apply, PullRaises, StatusesOk;
    StepKeepsStatuses(s, step);
    if Late(s, j) { LateStays(s, step, j); }
  }

  /** At some time the record of job `j` says COMPLETED. */
  ghost predicate EverCompleted(s: State, steps: seq<Step>, j: JobId)
    requires Possible(s, steps)
    decreases |steps|
  {
    || (j in s.records && s.records[j].status == Completed)
    || (steps != [] && EverCompleted(Apply(s, steps[0]), steps[1..], j))
  }

  /** Every run without raising pulls: nothing is lost of all this, a job that was once completed stays
      so unless its client gives up, and without time-outs the status of every job moves forward. */
  lemma {:induction false} RunKeepsStatuses(t: bool, s: State, steps: seq<Step>)
    requires AllOk(s) && Possible(s, steps) && Permitted(t, false, s, steps)
    ensures AllOk(Run(s, steps))
    ensures forall j :: CompletedOrLate(s, j) || EverCompleted(s, steps, j) ==> CompletedOrLate(Run(s, steps), j)
    ensures !t && (forall j :: !Late(s, j)) ==> RunForward(s, steps)
    decreases |steps|
  {
    hide AllOk, Late, Enabled, Apply, TimesOut, PullRaises, StatusesOk, CompletedOrLate;
    if steps != [] {
      var s' := Apply(s, steps[0]);
      StepKeepsStatuses(s, steps[0]);
      RunKeepsStatuses(t, s', steps[1..]);
      forall j | CompletedOrLate(s, j) ensures CompletedOrLate(s', j) { CompletedStays(s, steps[0], j); }
      if !t && forall j :: !Late(s, j) { NobodyLate(false, s, steps[0]); }
    }
    forall j | EverCompleted(s, steps, j) && !CompletedOrLate(s, j)
      ensures CompletedOrLate(Run(s, steps), j)
    {
      CompletedNow(s, j);
    }
  }

  lemma CompletedNow(s: State, j: JobId)
    ensures j in s.records && s.records[j].status == Completed ==> CompletedOrLate(s, j)
  {
  }

  // ---------- runs that show the failures ----------

  ghost predicate Way(t: bool, p: bool, s: State, steps: seq<Step>, s': State) {
    Possible(s, steps) && Permitted(t, p, s, steps) && Run(s, steps) == s'
  }

  /** Some run, with time-outs only if `t` and raising pulls only if `p`, leads from `s` to `s'`. */
  ghost predicate Leads(t: bool, p: bool, s: State, s': State) {
    exists steps :: Way(t, p, s, steps, s')
  }

  lemma {:induction false} Concat(t: bool, p: bool, s: State, a: seq<Step>, b: seq<Step>)
    requires Possible(s, a) && Permitted(t, p, s, a)
    requires Possible(Run(s, a), b) && Permitted(t, p, Run(s, a), b)
    ensures Way(t, p, s, a + b, Run(Run(s, a), b))
    decreases |a|
  {
    hide Apply, Enabled, Allowed;
    if a == [] {
      assert a + b == b;
    } else {
      Concat(t, p, Apply(s, a[0]), a[1..], b);
      assert (a + b)[1..] == a[1..] + b;
    }
  }

  lemma Onward(t: bool, p: bool, a: State, b: State, c: State)
    requires Leads(t, p, a, b) && Leads(t, p, b, c)
    ensures Leads(t, p, a, c)
  {
    hide Possible, Permitted, Run;
    var x, y :| Way(t, p, a, x, b) && Way(t, p, b, y, c);
    Concat(t, p, a, x, y);
    assert Way(t, p, a, x + y, c);
  }

  lemma OneStep(t: bool, p: bool, s: State, step: Step)
    requires Enabled(s, step) && Allowed(t, p, s, step)
    ensures Leads(t, p, s, Apply(s, step))
  {
    hide Apply, Enabled, Allowed;
    var s' := Apply(s, step);
    assert [step][1..] == [];
    assert Possible(s', []) && Permitted(t, p, s', []) && Run(s', []) == s';
    assert Possible(s, [step]) && Run(s, [step]) == s' && Permitted(t, p, s, [step]);
    assert Way(t, p, s, [step], s');
  }

  lemma {:induction false} NotForward(s: State, steps: seq<Step>, step: Step)
    requires Possible(s, steps) && Enabled(Run(s, steps), step)
    requires !StepForward(Run(s, steps), Apply(Run(s, steps), step))
    ensures Possible(s, steps + [step]) && !RunForward(s, steps + [step])
    decreases |steps|
  {
    hide Apply, Enabled, StepForward;
    Extend(s, steps, step);
    if steps == [] {
      assert steps + [step] == [step];
    } else {
      NotForward(Apply(s, steps[0]), steps[1..], step);
      assert (steps + [step])[1..] == steps[1..] + [step];
    }
  }

  /** A run that leads to a step backwards. */
  lemma Backwards(t: bool, p: bool, s: State, step: Step) returns (steps: seq<Step>)
    requires Leads(t, p, INIT, s) && Enabled(s, step) && Allowed(t, p, s, step) && !StepForward(s, Apply(s, step))
    ensures Possible(INIT, steps) && Permitted(t, p, INIT, steps) && !RunForward(INIT, steps)
  {
    hide Apply, Enabled, Allowed, StepForward;
    var most :| Way(t, p, INIT, most, s);
    NotForward(INIT, most, step);
    assert [step][1..] == [];
    Concat(t, p, INIT, most, [step]);
    steps := most + [step];
  }

  /** The next operation of the client of job `j`; if it stops waiting, time-outs are permitted. */
  lemma ClientGoes(t: bool, p: bool, s: State, j: JobId, name: Q.Name, stop: bool) returns (s': State)
    requires j in s.clients && !s.clients[j].Over() && name !in s.q.used && (stop ==> t)
    ensures Leads(t, p, s, s') && s' == ClientNext(s, j, name, stop)
  {
    hide ClientNext, Leads;
    OneStep(t, p, s, ClientStep(j, name, stop));
    s' := ClientNext(s, j, name, stop);
  }

  /** A client submits a job and publishes it. */
  lemma Submits(t: bool, p: bool, s: State, j: JobId, name: Q.Name) returns (s': State)
    requires j !in s.clients && name !in s.q.used
    ensures Leads(t, p, s, s')
    ensures s'.q.dir == s.q.dir[name := Q.Message(name, j)] && s'.q.used == s.q.used + {name}
    ensures s'.q.pullers == s.q.pullers && s'.daemons == s.daemons && s'.subscribed && s'.results == s.results
    ensures s'.records == s.records[j := Record(Submitted, false)] && s'.subs == s.subs[j := 0]
    ensures s'.clients == s.clients[j := Appearing(0)]
  {
    hide Leads;
    OneStep(t, p, s, Submit(j, 0));
    var s1 := Apply(s, Submit(j, 0));
    hide Apply, Enabled, Allowed;
    var s2 := ClientGoes(t, p, s1, j, name, false);
    Onward(t, p, s, s1, s2);
    var s3 := ClientGoes(t, p, s2, j, name, false);
    Onward(t, p, s, s2, s3);
    s' := ClientGoes(t, p, s3, j, name, false);
    Onward(t, p, s, s3, s');
    assert s'.clients == s.clients[j := Appearing(0)];
  }

  /** Nothing outside the queue, and of the queue only puller `d` and the directory, changes. */
  ghost predicate OnlyPuller(s: State, s': State, d: DaemonId) {
    && s'.records == s.records && s'.subs == s.subs && s'.results == s.results && s'.clients == s.clients
    && s'.subscribed == s.subscribed
    && (forall e :: e != d ==> s'.D(e) == s.D(e) && s'.q.Of(e) == s.q.Of(e))
  }

  /** A file-system operation of daemon `d` on its queue. */
  lemma Pulls(t: bool, p: bool, s: State, d: DaemonId, op: Q.Step) returns (s': State)
    requires Q.Enabled(s.q, op) && !op.Publish? && !op.Collect? && op.p == d
    requires op.Start? ==> s.subscribed && op.max == 1 && s.D(d).stage.Pulling?
    requires Q.Apply(s.q, op).Of(d).Raised? ==> p
    ensures Leads(t, p, s, s') && s' == s.(q := Q.Apply(s.q, op)) && OnlyPuller(s, s', d)
  {
    hide Leads;
    assert forall e :: e != d ==> Q.Apply(s.q, op).Of(e) == s.q.Of(e);
    hide Q.Apply, Q.Enabled;
    OneStep(t, p, s, PullStep(op));
    s' := s.(q := Q.Apply(s.q, op));
    assert forall e :: s'.D(e) == s.D(e);
  }

  /** Daemon `d` lists the one file there is and renames it. */
  lemma Grabs(t: bool, p: bool, s: State, d: DaemonId, name: Q.Name, tmp: Q.Name, m: Q.Message) returns (s': State)
    requires s.D(d).stage.Pulling? && s.q.Of(d).Idle? && s.subscribed && s.q.dir == map[name := m] && tmp !in s.q.used
    ensures Leads(t, p, s, s') && OnlyPuller(s, s', d) && s'.D(d) == s.D(d)
    ensures s'.q.Of(d) == Q.Grabbed(tmp, [], [], 1) && s'.q.dir == map[tmp := m] && s'.q.used == s.q.used + {tmp}
  {
    hide Leads, Enabled, Apply, Allowed;
    var s1 := Pulls(t, p, s, d, Q.Start(d, [name], 1, false));
    assert s1.q.Of(d) == Q.Scanning([name], [], 1);
    s' := Pulls(t, p, s1, d, Q.Grab(d, tmp, false));
    Onward(t, p, s, s1, s');
  }

  /** The pull is over. */
  lemma Takes(t: bool, p: bool, s: State, d: DaemonId) returns (s': State)
    requires s.D(d).stage.Pulling? && (s.q.Of(d).Returned? || s.q.Of(d).Raised?)
    ensures Leads(t, p, s, s') && OnlyPuller(s, s', d) && s'.D(d) == AfterPull(s.q.Of(d), s.D(d).job)
    ensures s'.q.Of(d).Idle? && s'.q.dir == s.q.dir && s'.q.used == s.q.used
  {
    hide Leads;
    OneStep(t, p, s, DaemonStep(d, 0, false));
    s' := Apply(s, DaemonStep(d, 0, false));
  }

  /** What a daemon's own operations leave alone. */
  ghost predicate OnlyDaemon(s: State, s': State, d: DaemonId) {
    && s'.q == s.q && s'.subs == s.subs && s'.clients == s.clients && s'.subscribed == s.subscribed
    && (forall e :: e != d ==> s'.D(e) == s.D(e))
  }

  /** The next operation of daemon `d`. */
  lemma Goes(t: bool, p: bool, s: State, d: DaemonId, j: JobId) returns (s': State)
    requires !s.D(d).stage.Pulling? && s.D(d).job == Some(j)
    ensures Leads(t, p, s, s') && OnlyDaemon(s, s', d)
    ensures s'.D(d) == Daemon(NextStage(s, j, s.D(d).stage, 0), Some(j))
    ensures s'.records == DaemonPut(s.records, j, s.D(d).stage)
    ensures s'.results == if s.D(d).stage.StoringResult? then s.results[j := s.D(d).stage.result] else s.results
  {
    hide Leads, NextStage, DaemonPut;
    OneStep(t, p, s, DaemonStep(d, 0, false));
    s' := Apply(s, DaemonStep(d, 0, false));
  }

  /** Job 0 is submitted and daemon 1 has its message. */
  lemma FirstJobTaken(t: bool, p: bool) returns (s: State)
    ensures Leads(t, p, INIT, s) && s.clients == map[0 := Appearing(0)] && s.subs == map[0 := 0]
    ensures s.records == map[0 := Record(Submitted, false)]
    ensures s.D(1) == Daemon(Checking, Some(0)) && s.D(2) == Daemon(Pulling, None)
    ensures s.q.Of(1).Idle? && s.q.Of(2).Idle? && s.q.dir == map[] && s.q.used == {0, 1}
  {
    hide Leads;
    var s1 := Submits(t, p, INIT, 0, 0);
    assert s1.q.dir == map[0 := Q.Message(0, 0)] && s1.D(1) == s1.D(2) == Daemon(Pulling, None);
    hide Enabled, Apply, Allowed;
    var s2 := Grabs(t, p, s1, 1, 0, 1, Q.Message(0, 0));
    Onward(t, p, INIT, s1, s2);
    var s3 := Pulls(t, p, s2, 1, Q.Open(1, false));
    Onward(t, p, INIT, s2, s3);
    var s4 := Pulls(t, p, s3, 1, Q.Remove(1, false));
    Onward(t, p, INIT, s3, s4);
    s := Takes(t, p, s4, 1);
    Onward(t, p, INIT, s4, s);
  }

  /** Daemon 1 is about to write STARTED. */
  lemma FirstJobChecked(t: bool, p: bool) returns (s: State)
    ensures Leads(t, p, INIT, s) && s.clients == map[0 := Appearing(0)]
    ensures s.records == map[0 := Record(Submitted, false)]
    ensures s.D(1) == Daemon(StartingPut(0, Record(Submitted, false)), Some(0)) && s.D(2) == Daemon(Pulling, None)
    ensures s.q.Of(1).Idle? && s.q.Of(2).Idle? && s.q.dir == map[] && s.q.used == {0, 1}
  {
    hide Leads, Enabled, Apply, Allowed;
    var s1 := FirstJobTaken(t, p);
    var s2 := Goes(t, p, s1, 1, 0);
    Onward(t, p, INIT, s1, s2);
    var s3 := Goes(t, p, s2, 1, 0);
    Onward(t, p, INIT, s2, s3);
    s := Goes(t, p, s3, 1, 0);
    Onward(t, p, INIT, s3, s);
  }

  /** Daemon 1 completes job 0. */
  lemma FirstJobCompleted(t: bool, p: bool) returns (s: State)
    ensures Leads(t, p, INIT, s) && s.clients == map[0 := Appearing(0)] && 0 in s.results
    ensures s.D(1) == Daemon(Pulling, Some(0)) && s.D(2) == Daemon(Pulling, None)
    ensures s.q.Of(1).Idle? && s.q.Of(2).Idle? && s.q.dir == map[] && s.q.used == {0, 1}
    ensures 0 in s.records && s.records[0].status == Completed
  {
    hide Leads, Enabled, Apply, Allowed;
    var s0 := FirstJobChecked(t, p);
    var s1 := Goes(t, p, s0, 1, 0);
    Onward(t, p, INIT, s0, s1);
    var s2 := Goes(t, p, s1, 1, 0);
    Onward(t, p, INIT, s1, s2);
    var s3 := Goes(t, p, s2, 1, 0);
    Onward(t, p, INIT, s2, s3);
    var s4 := Goes(t, p, s3, 1, 0);
    Onward(t, p, INIT, s3, s4);
    var s5 := Goes(t, p, s4, 1, 0);
    Onward(t, p, INIT, s4, s5);
    s := Goes(t, p, s5, 1, 0);
    Onward(t, p, INIT, s5, s);
  }

  /** Daemon 1 grabs file 2, daemon 2 takes its temporary file 3, and the pull of daemon 1 raises. */
  lemma FileTaken(t: bool, s: State, m: Q.Message) returns (s': State)
    requires s.q.dir == map[2 := m] && s.subscribed && s.q.used == {0, 1, 2}
    requires s.D(1).stage.Pulling? && s.q.Of(1).Idle? && s.D(2).stage.Pulling? && s.q.Of(2).Idle?
    ensures Leads(t, true, s, s') && s'.q.Of(1).Raised? && s'.D(1) == s.D(1) && s'.q.used == {0, 1, 2, 3, 4}
    ensures s'.records == s.records && s'.results == s.results && s'.clients == s.clients
  {
    hide Leads, Enabled, Apply, Allowed;
    var s1 := Grabs(t, true, s, 1, 2, 3, m);
    var s2 := Grabs(t, true, s1, 2, 3, 4, m);
    Onward(t, true, s, s1, s2);
    assert s2.q.Of(1) == Q.Grabbed(3, [], [], 1);
    s' := Pulls(t, true, s2, 1, Q.Open(1, false));
    Onward(t, true, s, s2, s');
  }

  /** Job 0 is completed; then the file of job 1 is taken from daemon 1 while it pulls, and the handler
      is about to record the error against job 0.  No operation fails on its own. */
  lemma PullRaisesLater(t: bool) returns (done: State, s: State)
    ensures Leads(t, true, INIT, done) && 0 in done.records && done.records[0].status == Completed
    ensures Leads(t, true, done, s) && 0 in s.clients && s.clients[0] == Appearing(0) && 0 in s.results
    ensures 0 in s.records && s.records[0].status == Completed && 100 !in s.q.used
    ensures s.D(1).stage.FailingPut? && s.D(1).job == Some(0) && s.D(1).stage.rec == s.records[0]
  {
    hide Leads;
    done := FirstJobCompleted(t, true);
    var s1 := Submits(t, true, done, 1, 2);
    var m := Q.Message(2, 1);
    assert s1.q.dir == map[2 := m] && s1.D(1) == Daemon(Pulling, Some(0)) && s1.D(2) == Daemon(Pulling, None);
    hide Enabled, Apply, Allowed, Q.Enabled, Q.Apply;
    var s2 := FileTaken(t, s1, m);
    Onward(t, true, done, s1, s2);
    var s3 := Takes(t, true, s2, 1);
    Onward(t, true, done, s2, s3);
    s := Goes(t, true, s3, 1, 0);
    Onward(t, true, done, s3, s);
  }

  /** A pull that raises can move a record from COMPLETED to ERROR. */
  lemma RaisingPullUndoes(t: bool) returns (steps: seq<Step>)
    ensures Possible(INIT, steps) && Permitted(t, true, INIT, steps) && !RunForward(INIT, steps)
  {
    hide Leads;
    var done, s := PullRaisesLater(t);
    Onward(t, true, INIT, done, s);
    var step := DaemonStep(1, 0, false);
    assert !StepForward(s, Apply(s, step)) by { assert 0 in s.records; }
    steps := Backwards(t, true, s, step);
  }

  /** The client of job 0 finds the record, waits too long, and marks the job as over, before daemon 1
      writes STARTED. */
  lemma TimedOutBeforeStart(p: bool) returns (s: State)
    ensures Leads(true, p, INIT, s) && 0 in s.records && s.records[0].status == Completed
    ensures s.D(1).stage.StartingPut? && s.D(1).job == Some(0)
  {
    hide Leads, Enabled, Apply, Allowed;
    var s0 := FirstJobChecked(true, p);
    var s1 := ClientGoes(true, p, s0, 0, 2, false);
    Onward(true, p, INIT, s0, s1);
    var s2 := ClientGoes(true, p, s1, 0, 2, true);
    Onward(true, p, INIT, s1, s2);
    var s3 := ClientGoes(true, p, s2, 0, 2, false);
    Onward(true, p, INIT, s2, s3);
    s := ClientGoes(true, p, s3, 0, 2, false);
    Onward(true, p, INIT, s3, s);
  }

  /** A time-out can move a record from COMPLETED to STARTED: the client gives up while a daemon is
      about to write STARTED. */
  lemma TimeOutUndone(p: bool) returns (steps: seq<Step>)
    ensures Possible(INIT, steps) && Permitted(true, p, INIT, steps) && !RunForward(INIT, steps)
  {
    hide Leads;
    var s := TimedOutBeforeStart(p);
    var step := DaemonStep(1, 0, false);
    assert !StepForward(s, Apply(s, step)) by { assert 0 in s.records; }
    steps := Backwards(true, p, s, step);
  }

  // ---------- when the status moves forward ----------

  /** In all runs with time-outs only if `t` and pulls that raise only if `p`, status moves forward:
      SUBMITTED, STARTED, then COMPLETED or ERROR for good. */
  ghost predicate AlwaysForward(t: bool, p: bool) {
    forall steps :: Possible(INIT, steps) && Permitted(t, p, INIT, steps) ==> RunForward(INIT, steps)
  }

  lemma StatusForwardExact(t: bool, p: bool)
    ensures AlwaysForward(t, p) <==> !t && !p
  {
    hide Possible, Permitted, RunForward, AllOk, Late;
    if !t && !p {
      InitStatuses();
      forall steps | Possible(INIT, steps) && Permitted(t, p, INIT, steps) ensures RunForward(INIT, steps) {
        RunKeepsStatuses(t, INIT, steps);
      }
    } else if p {
      var steps := RaisingPullUndoes(t);
    } else {
      var steps := TimeOutUndone(p);
    }
  }

  lemma {:induction false} EverPrefix(s: State, first: seq<Step>, steps: seq<Step>, j: JobId)
    requires Possible(s, first) && Possible(s, steps) && first <= steps
    requires j in Run(s, first).records && Run(s, first).records[j].status == Completed
    ensures EverCompleted(s, steps, j)
    decreases |steps|
  {
    hide Apply, Enabled;
    if first != [] { EverPrefix(Apply(s, steps[0]), first[1..], steps[1..], j); }
  }

  /** No client of a job that was completed ends in failure. */
  ghost predicate CompletedNeverFails(t: bool, p: bool) {
    forall steps, j ::
      Possible(INIT, steps) && Permitted(t, p, INIT, steps) && EverCompleted(INIT, steps, j) ==>
      !(j in Run(INIT, steps).clients && Run(INIT, steps).clients[j].Failed?)
  }

  lemma ClientOfCompleted(t: bool, steps: seq<Step>, j: JobId)
    requires Possible(INIT, steps) && Permitted(t, false, INIT, steps) && EverCompleted(INIT, steps, j)
    ensures !(j in Run(INIT, steps).clients && Run(INIT, steps).clients[j].Failed?)
  {
    hide TokensOk, DataOk, OneWorker, Possible, Permitted, Run, EverCompleted;
    InitStatuses();
    RunKeepsStatuses(t, INIT, steps);
  }

  /** The error is recorded, the waiting client of job 0 reads it and fails, although its job was
      completed and the result is stored. */
  lemma CompletedJobFails(t: bool) returns (steps: seq<Step>)
    ensures Possible(INIT, steps) && Permitted(t, true, INIT, steps) && EverCompleted(INIT, steps, 0)
    ensures var s := Run(INIT, steps); 0 in s.clients && s.clients[0].Failed? && 0 in s.results
  {
    hide Enabled, Apply, Allowed, Possible, Permitted, Run, EverCompleted;
    var done, s1 := PullRaisesLater(t);
    var s2 := Goes(t, true, s1, 1, 0);
    Onward(t, true, done, s1, s2);
    var s3 := ClientGoes(t, true, s2, 0, 100, false);
    Onward(t, true, done, s2, s3);
    var s := ClientGoes(t, true, s3, 0, 100, false);
    Onward(t, true, done, s3, s);
    var first, rest :| Way(t, true, INIT, first, done) && Way(t, true, done, rest, s);
    Concat(t, true, INIT, first, rest);
    steps := first + rest;
    EverPrefix(INIT, first, steps, 0);
  }

  /** With or without time-outs: the client of a completed job never fails exactly when no pull raises. */
  lemma CompletedNeverFailsExact(t: bool, p: bool)
    ensures CompletedNeverFails(t, p) <==> !p
  {
    hide Possible, Permitted, EverCompleted, Run;
    if p {
      var steps := CompletedJobFails(t);
    } else {
      forall steps, j | Possible(INIT, steps) && Permitted(t, p, INIT, steps) && EverCompleted(INIT, steps, j)
        ensures !(j in Run(INIT, steps).clients && Run(INIT, steps).clients[j].Failed?)
      {
        ClientOfCompleted(t, steps, j);
      }
    }
  }
}
