/** Submitting, running and fetching a job: clients and daemons that share a datastore, a
    blobstore and one subscription (archcloud/src/ArchLab/Runner.py, runlab_daemon.py).

    Every operation on a store and every file-system operation of a pull is one step; an
    update of a job record is a read and a later write.  A daemon pulls one message at a
    time.  Every operation of a daemon may also raise. */
module JobProtocol {
  import Q = LocalQueue

  type JobId = nat
  type DaemonId = Q.Pid

  datatype Option<T> = None | Some(value: T)

  datatype Status = Submitted | Started | Completed | Error

  /** `archived`: the record has a zip_archive entry. */
  datatype Record = Record(status: Status, archived: bool)

  type Submission = nat

  /** What running a submission produces. */
  datatype Result = Result(of: Submission, output: nat)

  /** run_submission_remotely, by the operation that comes next.  `sub` is what is submitted and
      `seen` the record that was read as completed. */
  datatype Client =
    | Storing(sub: Submission)
    | Pushing(sub: Submission)
    | Publishing(sub: Submission)
    | Appearing(sub: Submission)
    | Polling(sub: Submission)
    | TimingOut(sub: Submission)
    | TimingOutPut(sub: Submission, rec: Record)
    | TimedOut(sub: Submission)
    | Confirming(sub: Submission, seen: Record)
    | ConfirmingPut(sub: Submission, seen: Record, rec: Record)
    | Fetching(sub: Submission, seen: Record)
    | Done(sub: Submission, result: Result)
    | Failed(sub: Submission)
  {
    predicate Over() { TimedOut? || Done? || Failed? }
    predicate BeforePush() { Storing? || Pushing? }
    predicate BeforePublish() { BeforePush() || Publishing? }
    predicate Watching() { Publishing? || Appearing? || Polling? }
    predicate SawCompletion() { Confirming? || ConfirmingPut? || Fetching? }
  }

  /** The daemon's loop, by the operation that comes next. */
  datatype Stage =
    | Pulling
    | Checking
    | Reading
    | Starting(sub: Submission)
    | StartingPut(sub: Submission, rec: Record)
    | Running(sub: Submission)
    | Rechecking(result: Result)
    | StoringResult(result: Result)
    | Completing
    | CompletingPut(rec: Record)
    | Failing
    | FailingPut(rec: Record)
  {
    predicate BeforeRun() { Checking? || Reading? || HasSubmission() }
    predicate HasSubmission() { Starting? || StartingPut? || Running? }
    predicate HasResult() { Rechecking? || StoringResult? }
    predicate Stored() { Completing? || CompletingPut? }
  }

  /** `job` outlives the round in which it was pulled. */
  datatype Daemon = Daemon(stage: Stage, job: Option<JobId>)

  /** One execution of a submission; no result if it raised. */
  datatype Execution = Execution(on: DaemonId, job: JobId, result: Option<Result>)

  datatype State = State(
    subs: map<JobId, Submission>,
    results: map<JobId, Result>,
    records: map<JobId, Record>,
    subscribed: bool,
    q: Q.Queue,
    clients: map<JobId, Client>,
    daemons: map<DaemonId, Daemon>,
    runs: seq<Execution>)
  {
    function D(d: DaemonId): Daemon { if d in daemons then daemons[d] else Daemon(Pulling, None) }
  }

  const INIT := State(map[], map[], map[], false, Q.EMPTY, map[], map[], [])

  datatype Step =
    /** A client with a new job id starts; it makes sure that the subscription exists. */
    | Submit(j: JobId, sub: Submission)
    /** The next operation of a client: `name` is the uuid a publication uses, `stop` says that a
        waiting client has waited too long. */
    | ClientStep(j: JobId, name: Q.Name, stop: bool)
    /** A daemon starts; it makes sure that the subscription exists. */
    | Subscribe
    /** A file-system operation of a daemon that is pulling. */
    | PullStep(op: Q.Step)
    /** The next operation of a daemon, which may raise; `output` is what a run would produce. */
    | DaemonStep(d: DaemonId, output: nat, raises: bool)

  ghost predicate Enabled(s: State, step: Step) {
    match step
    case Submit(j, _) => j !in s.clients
    case ClientStep(j, name, _) => j in s.clients && !s.clients[j].Over() && name !in s.q.used
    case Subscribe => true
    case PullStep(op) =>
      && Q.Enabled(s.q, op) && !op.Publish? && !op.Collect?
      && (op.Start? ==> s.subscribed && op.max == 1 && s.D(op.p).stage.Pulling?)
    case DaemonStep(d, _, _) => s.D(d).stage.Pulling? ==> s.q.Of(d).Returned? || s.q.Of(d).Raised?
  }

  ghost function Apply(s: State, step: Step): State
    requires Enabled(s, step)
  {
    match step
    case Submit(j, sub) => s.(clients := s.clients[j := Storing(sub)], subscribed := true)
    case ClientStep(j, name, stop) => ClientNext(s, j, name, stop)
    case Subscribe => s.(subscribed := true)
    case PullStep(op) => s.(q := Q.Apply(s.q, op))
    case DaemonStep(d, output, raises) =>
      if s.D(d).stage.Pulling? then TakePulled(s, d) else DaemonNext(s, d, output, raises)
  }

  // ---------- clients ----------

  ghost function ClientNext(s: State, j: JobId, name: Q.Name, stop: bool): State
    requires j in s.clients && name !in s.q.used
  {
    var c := s.clients[j];
    s.(clients := s.clients[j := NextClient(s, j, c, stop)],
       subs := if c.Storing? then s.subs[j := c.sub] else s.subs,
       records := ClientPut(s.records, j, c),
       q := if c.Publishing? && s.subscribed then Q.Apply(s.q, Q.Publish(name, j)) else s.q)
  }

  /** What the operation writes to the datastore. */
  function ClientPut(records: map<JobId, Record>, j: JobId, c: Client): map<JobId, Record> {
    match c
    case Pushing(_) => records[j := Record(Submitted, false)]
    case TimingOutPut(_, rec) => records[j := rec.(status := Completed)]
    case ConfirmingPut(_, _, rec) => records[j := rec.(status := Completed)]
    case _ => records
  }

  /** Where the client goes, given what the operation reads. */
  function NextClient(s: State, j: JobId, c: Client, stop: bool): Client {
    match c
    case Storing(sub) => Pushing(sub)
    case Pushing(sub) => Publishing(sub)
    case Publishing(sub) => Appearing(sub)
    case Appearing(sub) => if j in s.records then Polling(sub) else if stop then Failed(sub) else c
    case Polling(sub) =>
      if stop then TimingOut(sub)
      else if j !in s.records then Failed(sub)
      else (match s.records[j].status
            case Completed => Confirming(sub, s.records[j])
            case Error => Failed(sub)
            case _ => c)
    case TimingOut(sub) => if j in s.records then TimingOutPut(sub, s.records[j]) else Failed(sub)
    case TimingOutPut(sub, rec) => TimedOut(sub)
    case Confirming(sub, seen) => if j in s.records then ConfirmingPut(sub, seen, s.records[j]) else Failed(sub)
    case ConfirmingPut(sub, seen, rec) => Fetching(sub, seen)
    case Fetching(sub, seen) => if j in s.results && seen.archived then Done(sub, s.results[j]) else Failed(sub)
    case _ => c
  }

  // ---------- daemons ----------

  /** The pull is over: with a message, with none, or with an exception, which is reported
      against the job of an earlier round if there was one. */
  ghost function TakePulled(s: State, d: DaemonId): State
    requires s.q.Of(d).Returned? || s.q.Of(d).Raised?
  {
    s.(q := Q.Apply(s.q, Q.Collect(d)), daemons := s.daemons[d := AfterPull(s.q.Of(d), s.D(d).job)])
  }

  function AfterPull(p: Q.Puller, job: Option<JobId>): Daemon {
    match p
    case Returned(got) => if got == [] then Daemon(Pulling, None) else Daemon(Checking, Some(got[0].body))
    case _ => Daemon(if job.Some? then Failing else Pulling, job)
  }

  function DaemonNext(s: State, d: DaemonId, output: nat, raises: bool): State {
    var x := s.D(d);
    if x.job.None? then s
    else
      var j := x.job.value;
      var next := if raises then Handler(x.stage) else NextStage(s, j, x.stage, output);
      s.(daemons := s.daemons[d := Daemon(next, x.job)],
         records := if raises then s.records else DaemonPut(s.records, j, x.stage),
         results := if x.stage.StoringResult? && !raises then s.results[j := x.stage.result] else s.results,
         runs := s.runs + NewRun(d, j, x.stage, output, raises))
  }

  /** An exception inside the loop is recorded as an error; one inside the handler is only logged. */
  function Handler(stage: Stage): Stage {
    if stage.Failing? || stage.FailingPut? then Pulling else Failing
  }

  /** What the operation writes to the datastore. */
  function DaemonPut(records: map<JobId, Record>, j: JobId, stage: Stage): map<JobId, Record> {
    match stage
    case StartingPut(_, rec) => records[j := rec.(status := Started)]
    case CompletingPut(rec) => records[j := rec.(status := Completed, archived := true)]
    case FailingPut(rec) => records[j := rec.(status := Error)]
    case _ => records
  }

  function NewRun(d: DaemonId, j: JobId, stage: Stage, output: nat, raises: bool): seq<Execution> {
    if stage.Running? then [Execution(d, j, if raises then None else Some(Result(stage.sub, output)))] else []
  }

  /** Where the daemon goes, given what the operation reads. */
  function NextStage(s: State, j: JobId, stage: Stage, output: nat): Stage {
    match stage
    case Pulling => Pulling
    case Checking => if j in s.records && s.records[j].status == Submitted then Reading else Pulling
    case Reading => if j in s.subs then Starting(s.subs[j]) else Failing
    case Starting(sub) => if j in s.records then StartingPut(sub, s.records[j]) else Failing
    case StartingPut(sub, rec) => Running(sub)
    case Running(sub) => Rechecking(Result(sub, output))
    case Rechecking(result) =>
      if j in s.records && s.records[j].status == Started then StoringResult(result) else Pulling
    case StoringResult(result) => Completing
    case Completing => if j in s.records then CompletingPut(s.records[j]) else Failing
    case CompletingPut(rec) => Pulling
    case Failing => if j in s.records then FailingPut(s.records[j]) else Pulling
    case FailingPut(rec) => Pulling
  }

  ghost predicate Possible(s: State, steps: seq<Step>)
    decreases |steps|
  {
    steps == [] || (Enabled(s, steps[0]) && Possible(Apply(s, steps[0]), steps[1..]))
  }

  ghost function Run(s: State, steps: seq<Step>): State
    requires Possible(s, steps)
    decreases |steps|
  {
    if steps == [] then s else Run(Apply(s, steps[0]), steps[1..])
  }

  lemma {:induction false} Extend(s: State, steps: seq<Step>, step: Step)
    requires Possible(s, steps) && Enabled(Run(s, steps), step)
    ensures Possible(s, steps + [step]) && Run(s, steps + [step]) == Apply(Run(s, steps), step)
    decreases |steps|
  {
    hide Apply, Enabled;
    if steps == [] {
      assert steps + [step] == [step];
      assert Run(Apply(s, step), []) == Apply(s, step);
    } else {
      Extend(Apply(s, steps[0]), steps[1..], step);
      assert (steps + [step])[1..] == steps[1..] + [step];
    }
  }

  // ---------- the queue and who has which job ----------

  /** A message naming the job has been handed to some daemon. */
  ghost predicate HandedOut(s: State, j: JobId) {
    exists m :: m in s.q.returned && m.body == j
  }

  /** Daemon `d` has the job and has not run it. */
  ghost predicate Holds(s: State, d: DaemonId, j: JobId) {
    || (s.q.Of(d).Returned? && s.q.Of(d).got != [] && s.q.Of(d).got[0].body == j)
    || (s.D(d).stage.BeforeRun() && s.D(d).job == Some(j))
  }

  ghost predicate Ran(s: State, j: JobId) {
    exists e :: e in s.runs && e.job == j
  }

  /** The queue works as LocalQueue says, and a daemon pulls only between jobs. */
  ghost predicate QueueOk(s: State) {
    && Q.Inv(s.q) && Q.SinglePulls(s.q)
    && (forall d :: !s.q.Of(d).Idle? ==> s.D(d).stage.Pulling?)
    && (forall d :: s.q.Of(d).Returned? ==> forall m :: m in s.q.Of(d).got ==> m in s.q.returned)
  }

  /** Each job is published once, by its client. */
  ghost predicate MessagesOk(s: State) {
    && (forall m :: m in s.q.published ==> m.body in s.clients && !s.clients[m.body].BeforePublish())
    && (forall m, n :: m in s.q.published && n in s.q.published && m.body == n.body ==> m == n)
  }

  ghost predicate JobsKnown(s: State) {
    && (forall d :: !s.D(d).stage.Pulling? ==> s.D(d).job.Some?)
    && (forall d :: s.D(d).job.Some? ==> HandedOut(s, s.D(d).job.value))
  }

  /** A job is held by at most one daemon, and by none once it has run. */
  ghost predicate HeldOnce(s: State) {
    && (forall d, e, j :: Holds(s, d, j) && Holds(s, e, j) ==> d == e)
    && (forall d, j :: Holds(s, d, j) ==> HandedOut(s, j) && !Ran(s, j))
    && (forall e :: e in s.runs ==> HandedOut(s, e.job))
    && (forall i, k :: 0 <= i < k < |s.runs| ==> s.runs[i].job != s.runs[k].job)
  }

  ghost predicate TokensOk(s: State) {
    QueueOk(s) && MessagesOk(s) && JobsKnown(s) && HeldOnce(s)
  }

  lemma DeliveredIsPublished(q: Q.Queue, m: Q.Message)
    requires Q.Inv(q) && m in q.returned
    ensures m in q.published && forall n :: n in q.dir ==> q.dir[n] != m
  {
    var i: nat :| i < |q.returned| && q.returned[i] == m;
    assert Q.At(q, m, Q.Delivered(i));
    forall n | n in q.dir && q.dir[n] == m ensures false { assert Q.At(q, m, Q.InDir(n)); }
  }

  lemma InDirIsPublished(q: Q.Queue, n: Q.Name)
    requires Q.Inv(q) && n in q.dir
    ensures q.dir[n] in q.published
  {
    assert Q.At(q, q.dir[n], Q.InDir(n));
  }

  /** A message still in the directory names a job that nobody has been handed. */
  lemma InDirNotHandedOut(s: State, n: Q.Name)
    requires QueueOk(s) && MessagesOk(s) && n in s.q.dir
    ensures !HandedOut(s, s.q.dir[n].body)
  {
    if HandedOut(s, s.q.dir[n].body) {
      var m :| m in s.q.returned && m.body == s.q.dir[n].body;
      DeliveredIsPublished(s.q, m);
      InDirIsPublished(s.q, n);
    }
  }

  /** The stores and the clients' own progress do not matter. */
  lemma OutsideTokens(s: State, s': State)
    requires TokensOk(s) && s'.q == s.q && s'.runs == s.runs && s'.daemons == s.daemons
    requires forall j :: j in s.clients && !s.clients[j].BeforePublish() ==>
      j in s'.clients && !s'.clients[j].BeforePublish()
    ensures TokensOk(s')
  {
    assert forall d :: s'.D(d) == s.D(d);
    assert forall d, k :: Holds(s', d, k) == Holds(s, d, k);
    assert forall k :: HandedOut(s', k) == HandedOut(s, k);
    assert forall k :: Ran(s', k) == Ran(s, k);
  }

  lemma NextClientPublished(s: State, j: JobId, c: Client, stop: bool)
    requires !c.Publishing?
    ensures !c.BeforePublish() ==> !NextClient(s, j, c, stop).BeforePublish()
  {
  }

  lemma ClientKeepsTokens(s: State, j: JobId, name: Q.Name, stop: bool)
    requires TokensOk(s) && Enabled(s, ClientStep(j, name, stop))
    ensures TokensOk(ClientNext(s, j, name, stop))
  {
    hide TokensOk, NextClient, ClientPut;
    if s.clients[j].Publishing? {
      PublishKeepsTokens(s, j, name, stop);
    } else {
      NextClientPublished(s, j, s.clients[j], stop);
      OutsideTokens(s, ClientNext(s, j, name, stop));
    }
  }

  lemma PublishKeepsQueueOk(s: State, j: JobId, name: Q.Name, stop: bool)
    requires QueueOk(s) && Enabled(s, ClientStep(j, name, stop)) && s.clients[j].Publishing?
    ensures QueueOk(ClientNext(s, j, name, stop))
  {
    var s' := ClientNext(s, j, name, stop);
    if s.subscribed {
      Q.StepKeepsInv(s.q, Q.Publish(name, j));
      Q.StepKeepsSingle(s.q, Q.Publish(name, j));
    }
    hide Q.Inv, Q.SinglePulls;
    assert forall d :: s'.D(d) == s.D(d) && s'.q.Of(d) == s.q.Of(d);
  }

  lemma PublishKeepsMessages(s: State, j: JobId, name: Q.Name, stop: bool)
    requires MessagesOk(s) && Enabled(s, ClientStep(j, name, stop)) && s.clients[j].Publishing?
    ensures MessagesOk(ClientNext(s, j, name, stop))
  {
  }

  /** Who holds, was handed or ran a job is the same if the queue's pullers, the daemons and the runs are. */
  lemma SameHolders(s: State, s': State)
    requires JobsKnown(s) && HeldOnce(s) && s'.daemons == s.daemons && s'.runs == s.runs
    requires s'.q.pullers == s.q.pullers && s'.q.returned == s.q.returned
    ensures JobsKnown(s') && HeldOnce(s')
  {
    assert forall d :: s'.D(d) == s.D(d) && s'.q.Of(d) == s.q.Of(d);
    assert forall d, k :: Holds(s', d, k) == Holds(s, d, k);
    assert forall k :: HandedOut(s', k) == HandedOut(s, k);
    assert forall k :: Ran(s', k) == Ran(s, k);
  }

  lemma PublishKeepsTokens(s: State, j: JobId, name: Q.Name, stop: bool)
    requires TokensOk(s) && Enabled(s, ClientStep(j, name, stop)) && s.clients[j].Publishing?
    ensures TokensOk(ClientNext(s, j, name, stop))
  {
    hide QueueOk, MessagesOk, JobsKnown, HeldOnce;
    PublishKeepsQueueOk(s, j, name, stop);
    PublishKeepsMessages(s, j, name, stop);
    SameHolders(s, ClientNext(s, j, name, stop));
  }

  lemma PullKeepsTokens(s: State, op: Q.Step)
    requires TokensOk(s) && Enabled(s, PullStep(op))
    ensures TokensOk(Apply(s, PullStep(op)))
  {
    var s' := Apply(s, PullStep(op));
    Q.StepKeepsInv(s.q, op);
    Q.StepKeepsSingle(s.q, op);
    PullKeepsQueueOk(s, op);
    assert s'.q.published == s.q.published;
    assert forall d :: s'.D(d) == s.D(d);
    assert forall k :: HandedOut(s, k) ==> HandedOut(s', k);
    assert forall k :: Ran(s', k) == Ran(s, k);
    PullHolds(s, op);
  }

  lemma PullKeepsQueueOk(s: State, op: Q.Step)
    requires TokensOk(s) && Enabled(s, PullStep(op))
    ensures QueueOk(Apply(s, PullStep(op)))
  {
    var s' := Apply(s, PullStep(op));
    Q.StepKeepsInv(s.q, op);
    Q.StepKeepsSingle(s.q, op);
    forall d
      ensures !s'.q.Of(d).Idle? ==> s'.D(d).stage.Pulling?
      ensures s'.q.Of(d).Returned? ==> forall m :: m in s'.q.Of(d).got ==> m in s'.q.returned
    {
      assert d != op.p ==> s'.q.Of(d) == s.q.Of(d);
    }
  }

  /** A pull changes who holds what only by delivering a message nobody had. */
  lemma PullHolds(s: State, op: Q.Step)
    requires TokensOk(s) && Enabled(s, PullStep(op))
    ensures var s' := Apply(s, PullStep(op));
      forall d, k :: Holds(s', d, k) && !Holds(s, d, k) ==>
        d == op.p && HandedOut(s', k) && !HandedOut(s, k)
    ensures forall d, k :: Holds(Apply(s, PullStep(op)), d, k) && d == op.p ==> !HandedOut(s, k)
  {
    var s' := Apply(s, PullStep(op));
    forall d, k | Holds(s', d, k)
      ensures !Holds(s, d, k) ==> d == op.p && HandedOut(s', k) && !HandedOut(s, k)
      ensures d == op.p ==> !HandedOut(s, k)
    {
      assert s'.D(d) == s.D(d);
      assert d != op.p ==> s'.q.Of(d) == s.q.Of(d);
      if d == op.p {
        assert op.Remove? && s.q.Of(d).tmp in s.q.dir;
        var m := s.q.Of(d).msg;
        assert s.q.dir[s.q.Of(d).tmp] == m;
        InDirNotHandedOut(s, s.q.Of(d).tmp);
        assert m in s'.q.returned;
      }
    }
  }

  lemma NextStageRuns(s: State, d: DaemonId, j: JobId, stage: Stage, output: nat, raises: bool)
    requires !stage.Pulling?
    ensures var next := if raises then Handler(stage) else NextStage(s, j, stage, output);
      var ran := NewRun(d, j, stage, output, raises);
      && (ran == [] ==> next.BeforeRun() ==> stage.BeforeRun())
      && (ran != [] ==> |ran| == 1 && ran[0].job == j && stage.BeforeRun() && !next.BeforeRun())
  {
  }

  lemma DaemonKeepsTokens(s: State, d: DaemonId, output: nat, raises: bool)
    requires TokensOk(s) && !s.D(d).stage.Pulling?
    ensures TokensOk(DaemonNext(s, d, output, raises))
  {
    var s', j := DaemonNext(s, d, output, raises), s.D(d).job.value;
    var ran := NewRun(d, j, s.D(d).stage, output, raises);
    NextStageRuns(s, d, j, s.D(d).stage, output, raises);
    hide NextStage, DaemonPut, NewRun, Handler, Q.Inv, Q.SinglePulls;
    assert forall e :: e != d ==> s'.D(e) == s.D(e);
    assert forall k :: HandedOut(s', k) == HandedOut(s, k);
    assert s.q.Of(d).Idle?;
    HoldsAfterRun(s, d, s', ran);
    if ran != [] {
      assert Holds(s, d, j);
      forall i | 0 <= i < |s.runs| ensures s.runs[i].job != j { assert !Ran(s, j); }
    }
  }

  /** A daemon's move gives it nothing new, and what it ran nobody holds. */
  lemma HoldsAfterRun(s: State, d: DaemonId, s': State, ran: seq<Execution>)
    requires TokensOk(s) && s'.q == s.q && s.q.Of(d).Idle? && s'.runs == s.runs + ran && |ran| <= 1
    requires forall e :: e != d ==> s'.D(e) == s.D(e)
    requires s'.D(d).job == s.D(d).job
    requires ran == [] ==> s'.D(d).stage.BeforeRun() ==> s.D(d).stage.BeforeRun()
    requires ran != [] ==> Holds(s, d, ran[0].job) && !s'.D(d).stage.BeforeRun()
    ensures forall e, k :: Holds(s', e, k) ==> Holds(s, e, k) && !Ran(s', k)
  {
    hide QueueOk, MessagesOk, JobsKnown;
    assert forall k :: Ran(s', k) ==> Ran(s, k) || (ran != [] && ran[0].job == k);
    forall e, k | Holds(s', e, k) ensures Holds(s, e, k) && !Ran(s', k) {
      assert Holds(s, e, k);
    }
  }

  lemma TakeKeepsQueueOk(s: State, d: DaemonId)
    requires QueueOk(s) && s.D(d).stage.Pulling? && (s.q.Of(d).Returned? || s.q.Of(d).Raised?)
    ensures QueueOk(TakePulled(s, d))
  {
    hide Q.NamesKept, Q.OnePlace;
    Q.StepKeepsInv(s.q, Q.Collect(d));
    Q.StepKeepsSingle(s.q, Q.Collect(d));
    hide Q.Inv;
    var s' := TakePulled(s, d);
    forall e
      ensures !s'.q.Of(e).Idle? ==> s'.D(e).stage.Pulling?
      ensures s'.q.Of(e).Returned? ==> forall m :: m in s'.q.Of(e).got ==> m in s'.q.returned
    {
      assert e != d ==> s'.D(e) == s.D(e) && s'.q.Of(e) == s.q.Of(e);
    }
  }

  lemma TakeKeepsTokens(s: State, d: DaemonId)
    requires TokensOk(s) && s.D(d).stage.Pulling? && (s.q.Of(d).Returned? || s.q.Of(d).Raised?)
    ensures TokensOk(TakePulled(s, d))
  {
    TakeKeepsQueueOk(s, d);
    hide Q.Inv, Q.SinglePulls;
    var s' := TakePulled(s, d);
    assert forall e :: e != d ==> s'.D(e) == s.D(e) && s'.q.Of(e) == s.q.Of(e);
    assert forall k :: HandedOut(s', k) == HandedOut(s, k);
    assert forall k :: Ran(s', k) == Ran(s, k);
    assert forall e, k :: Holds(s', e, k) ==> Holds(s, e, k);
    if s.q.Of(d).Returned? && s.q.Of(d).got != [] {
      assert s.q.Of(d).got[0] in s.q.returned;
    }
  }

  lemma StepKeepsTokens(s: State, step: Step)
    requires TokensOk(s) && Enabled(s, step)
    ensures TokensOk(Apply(s, step))
  {
    hide TokensOk, ClientNext, DaemonNext, TakePulled;
    match step
    case ClientStep(j, name, stop) => ClientKeepsTokens(s, j, name, stop);
    case PullStep(op) => PullKeepsTokens(s, op);
    case DaemonStep(d, output, raises) =>
      if s.D(d).stage.Pulling? { TakeKeepsTokens(s, d); } else { DaemonKeepsTokens(s, d, output, raises); }
    case _ => OutsideTokens(s, Apply(s, step));
  }

  // ---------- what the stores hold ----------

  ghost predicate Produced(s: State, j: JobId, r: Result) {
    exists e :: e in s.runs && e.job == j && e.result == Some(r)
  }

  ghost predicate WasPublished(q: Q.Queue, j: JobId) {
    exists m :: m in q.published && m.body == j
  }

  /** Until its client times out, a job whose record says COMPLETED has its result stored. */
  ghost predicate ClientOk(s: State, j: JobId)
    requires j in s.clients
  {
    var c := s.clients[j];
    && (c.Storing? <==> j !in s.subs) && (j in s.subs ==> s.subs[j] == c.sub)
    && (c.BeforePush() <==> j !in s.records)
    && (!c.BeforePublish() ==> WasPublished(s.q, j))
    && (c.Watching() && s.records[j].status == Completed ==> s.records[j].archived && j in s.results)
    && (c.SawCompletion() ==> c.seen.archived && j in s.results)
    && (c.Done? ==> c.result.of == c.sub && Produced(s, j, c.result))
  }

  ghost predicate DaemonOk(s: State, d: DaemonId) {
    var x := s.D(d);
    x.job.Some? ==>
      var j := x.job.value;
      && j in s.subs && j in s.clients && !s.clients[j].BeforePublish()
      && (x.stage.HasSubmission() ==> x.stage.sub == s.subs[j])
      && (x.stage.HasResult() ==> x.stage.result.of == s.subs[j] && Produced(s, j, x.stage.result))
      && (x.stage.Stored() ==> j in s.results)
  }

  ghost predicate ResultOk(s: State, j: JobId)
    requires j in s.results
  {
    j in s.subs && s.results[j].of == s.subs[j] && Produced(s, j, s.results[j])
  }

  ghost predicate DataOk(s: State) {
    && s.subs.Keys <= s.clients.Keys && s.records.Keys <= s.clients.Keys
    && (s.clients != map[] ==> s.subscribed)
    && (forall j :: j in s.clients ==> ClientOk(s, j))
    && (forall d :: DaemonOk(s, d))
    && (forall j :: j in s.results ==> ResultOk(s, j))
  }

  /** The job a daemon knows was published by its client. */
  lemma HandedOutPublished(s: State, j: JobId)
    requires TokensOk(s) && HandedOut(s, j)
    ensures j in s.clients && !s.clients[j].BeforePublish()
  {
    var m :| m in s.q.returned && m.body == j;
    DeliveredIsPublished(s.q, m);
  }

  lemma ClientStarts(s: State, j: JobId, name: Q.Name, stop: bool)
    requires DataOk(s) && j in s.clients && name !in s.q.used && s.clients[j].BeforePublish()
    ensures ClientOk(ClientNext(s, j, name, stop), j)
  {
    var s' := ClientNext(s, j, name, stop);
    assert ClientOk(s, j);
    if s.clients[j].Publishing? { assert Q.Message(name, j) in s'.q.published; }
  }

  lemma ClientGoesOn(s: State, j: JobId, name: Q.Name, stop: bool)
    requires DataOk(s) && j in s.clients && name !in s.q.used && !s.clients[j].BeforePublish()
    ensures ClientOk(ClientNext(s, j, name, stop), j)
  {
    hide DaemonOk, WasPublished;
    assert ClientOk(s, j) && ClientNext(s, j, name, stop).q == s.q;
    if s.clients[j].Fetching? { assert ResultOk(s, j); }
  }

  lemma ClientKeepsOwn(s: State, j: JobId, name: Q.Name, stop: bool)
    requires DataOk(s) && j in s.clients && name !in s.q.used
    ensures ClientOk(ClientNext(s, j, name, stop), j)
  {
    hide *;
    if s.clients[j].BeforePublish() { ClientStarts(s, j, name, stop); } else { ClientGoesOn(s, j, name, stop); }
  }

  /** A client's operation, seen from another client ... */
  lemma ClientKeepsOther(s: State, j: JobId, name: Q.Name, stop: bool, k: JobId)
    requires j in s.clients && name !in s.q.used && k in s.clients && k != j && ClientOk(s, k)
    ensures ClientOk(ClientNext(s, j, name, stop), k)
  {
    hide NextClient;
    var s' := ClientNext(s, j, name, stop);
    assert s'.q.published >= s.q.published && s'.runs == s.runs;
    if WasPublished(s.q, k) { assert WasPublished(s'.q, k); }
  }

  /** ... and from a daemon and a stored result. */
  lemma ClientKeepsRest(s: State, j: JobId, name: Q.Name, stop: bool)
    requires DataOk(s) && j in s.clients && name !in s.q.used
    ensures var s' := ClientNext(s, j, name, stop);
      (forall d :: DaemonOk(s', d)) && (forall k :: k in s'.results ==> ResultOk(s', k))
  {
    var s' := ClientNext(s, j, name, stop);
    assert ClientOk(s, j) && s'.runs == s.runs;
    forall d ensures DaemonOk(s', d) {
      assert DaemonOk(s, d) && s'.D(d) == s.D(d);
    }
    forall k | k in s'.results ensures ResultOk(s', k) { assert ResultOk(s, k); }
  }

  lemma ClientKeepsData(s: State, j: JobId, name: Q.Name, stop: bool)
    requires DataOk(s) && j in s.clients && name !in s.q.used
    ensures DataOk(ClientNext(s, j, name, stop))
  {
    hide ClientOk, DaemonOk, ResultOk, NextClient;
    var s' := ClientNext(s, j, name, stop);
    ClientKeepsRest(s, j, name, stop);
    forall k | k in s'.clients ensures ClientOk(s', k) {
      if k == j { ClientKeepsOwn(s, j, name, stop); } else { ClientKeepsOther(s, j, name, stop, k); }
    }
  }

  /** A daemon's operation on its job `j`, seen from the clients. */
  lemma DaemonKeepsClient(s: State, d: DaemonId, output: nat, raises: bool, k: JobId)
    requires DataOk(s) && k in s.clients
    ensures ClientOk(DaemonNext(s, d, output, raises), k)
  {
    var s' := DaemonNext(s, d, output, raises);
    hide NextStage, Handler, NewRun;
    assert ClientOk(s, k) && DaemonOk(s, d);
    assert s.runs <= s'.runs;
    assert forall r :: Produced(s, k, r) ==> Produced(s', k, r);
  }

  /** A daemon's own operation, seen from itself. */
  lemma DaemonKeepsOwn(s: State, d: DaemonId, output: nat, raises: bool)
    requires DataOk(s)
    ensures DaemonOk(DaemonNext(s, d, output, raises), d)
  {
    var s', x := DaemonNext(s, d, output, raises), s.D(d);
    assert DaemonOk(s, d);
    if x.job.Some? {
      if x.stage.Running? && !raises {
        var e := Execution(d, x.job.value, Some(Result(x.stage.sub, output)));
        assert s'.runs[|s.runs|] == e;
        assert Produced(s', x.job.value, Result(x.stage.sub, output));
      }
    }
  }

  lemma DaemonKeepsData(s: State, d: DaemonId, output: nat, raises: bool)
    requires DataOk(s)
    ensures DataOk(DaemonNext(s, d, output, raises))
  {
    var s' := DaemonNext(s, d, output, raises);
    DaemonKeepsOwn(s, d, output, raises);
    hide NextStage, Handler, NewRun;
    assert DaemonOk(s, d) && s.runs <= s'.runs;
    assert forall k, r :: Produced(s, k, r) ==> Produced(s', k, r);
    forall k | k in s'.clients ensures ClientOk(s', k) { DaemonKeepsClient(s, d, output, raises, k); }
    forall e ensures DaemonOk(s', e) {
      if e != d { assert DaemonOk(s, e) && s'.D(e) == s.D(e); }
    }
    forall k | k in s'.results ensures ResultOk(s', k) {
      if k in s.results { assert ResultOk(s, k); }
    }
  }

  lemma TakeKeepsData(s: State, d: DaemonId)
    requires DataOk(s) && TokensOk(s) && (s.q.Of(d).Returned? || s.q.Of(d).Raised?)
    ensures DataOk(TakePulled(s, d))
  {
    hide Q.Inv, Q.SinglePulls, MessagesOk, JobsKnown, HeldOnce;
    var s' := TakePulled(s, d);
    assert forall k, r :: Produced(s', k, r) == Produced(s, k, r);
    forall k | k in s'.clients ensures ClientOk(s', k) { assert ClientOk(s, k); }
    forall k | k in s'.results ensures ResultOk(s', k) { assert ResultOk(s, k); }
    forall e ensures DaemonOk(s', e) {
      assert DaemonOk(s, e);
      if e != d { assert s'.D(e) == s.D(e); }
      else if s.q.Of(d).Returned? && s.q.Of(d).got != [] {
        assert s.q.Of(d).got[0] in s.q.returned;
        HandedOutPublished(s, s.q.Of(d).got[0].body);
        assert ClientOk(s, s.q.Of(d).got[0].body);
      }
    }
  }

  lemma PullKeepsData(s: State, op: Q.Step)
    requires DataOk(s) && Enabled(s, PullStep(op))
    ensures DataOk(Apply(s, PullStep(op)))
  {
    var s' := Apply(s, PullStep(op));
    assert s'.q.published == s.q.published;
    hide Q.Apply;
    assert forall k, r :: Produced(s', k, r) == Produced(s, k, r);
    forall k | k in s'.clients ensures ClientOk(s', k) { assert ClientOk(s, k); }
    forall e ensures DaemonOk(s', e) { assert DaemonOk(s, e) && s'.D(e) == s.D(e); }
    forall k | k in s'.results ensures ResultOk(s', k) { assert ResultOk(s, k); }
  }

  lemma SubmitKeepsData(s: State, step: Step)
    requires DataOk(s) && Enabled(s, step) && (step.Submit? || step.Subscribe?)
    ensures DataOk(Apply(s, step))
  {
    var s' := Apply(s, step);
    assert forall k, r :: Produced(s', k, r) == Produced(s, k, r);
    forall k | k in s'.clients ensures ClientOk(s', k) {
      if k in s.clients { assert ClientOk(s, k); }
    }
    forall e ensures DaemonOk(s', e) { assert DaemonOk(s, e) && s'.D(e) == s.D(e); }
    forall k | k in s'.results ensures ResultOk(s', k) { assert ResultOk(s, k); }
  }

  lemma StepKeepsData(s: State, step: Step)
    requires DataOk(s) && TokensOk(s) && Enabled(s, step)
    ensures DataOk(Apply(s, step))
  {
    hide DataOk, TokensOk, ClientNext, DaemonNext, TakePulled;
    match step
    case ClientStep(j, name, stop) => ClientKeepsData(s, j, name, stop);
    case PullStep(op) => PullKeepsData(s, op);
    case DaemonStep(d, output, raises) =>
      if s.D(d).stage.Pulling? { TakeKeepsData(s, d); } else { DaemonKeepsData(s, d, output, raises); }
    case _ => SubmitKeepsData(s, step);
  }

  // ---------- every run ----------

  lemma {:induction false} RunKeepsInvariants(s: State, steps: seq<Step>)
    requires TokensOk(s) && DataOk(s) && Possible(s, steps)
    ensures TokensOk(Run(s, steps)) && DataOk(Run(s, steps))
    decreases |steps|
  {
    hide TokensOk, DataOk, Enabled, Apply;
    if steps != [] {
      StepKeepsTokens(s, steps[0]);
      StepKeepsData(s, steps[0]);
      RunKeepsInvariants(Apply(s, steps[0]), steps[1..]);
    }
  }

  lemma InitInvariants()
    ensures TokensOk(INIT) && DataOk(INIT)
  {
    Q.InitInv();
  }

  /** Each submitted job is run at most once, whichever daemons run and fail. */
  lemma RunAtMostOnce(steps: seq<Step>, i: nat, k: nat)
    requires Possible(INIT, steps) && i < k < |Run(INIT, steps).runs|
    ensures Run(INIT, steps).runs[i].job != Run(INIT, steps).runs[k].job
  {
    InitInvariants();
    RunKeepsInvariants(INIT, steps);
  }

  /** A client that reads COMPLETED before it times out finds the result blob: the next
      operation succeeds, and what it returns is the result of the one execution of its job, on
      exactly what it submitted. */
  lemma ClientGetsItsResult(steps: seq<Step>, j: JobId, name: Q.Name, stop: bool) returns (i: nat)
    requires Possible(INIT, steps)
    requires j in Run(INIT, steps).clients && Run(INIT, steps).clients[j].Fetching?
    requires Enabled(Run(INIT, steps), ClientStep(j, name, stop))
    ensures var s := Run(INIT, steps);
      var c, c' := s.clients[j], Apply(s, ClientStep(j, name, stop)).clients[j];
      && i < |s.runs| && c'.Done? && c'.result.of == c.sub
      && s.runs[i].job == j && s.runs[i].result == Some(c'.result)
      && forall k :: 0 <= k < |s.runs| && s.runs[k].job == j ==> k == i
  {
    hide QueueOk, MessagesOk, JobsKnown, DaemonOk;
    var s := Run(INIT, steps);
    InitInvariants();
    RunKeepsInvariants(INIT, steps);
    assert ClientOk(s, j) && ResultOk(s, j);
    i :| 0 <= i < |s.runs| && s.runs[i].job == j && s.runs[i].result == Some(s.results[j]);
    assert HeldOnce(s);
  }

  /** No job is dropped because the subscription came too late: once its client has published, its
      message is waiting in the directory or was handed to exactly one daemon. */
  lemma PublishedIsNotDropped(steps: seq<Step>, j: JobId)
    requires Possible(INIT, steps)
    requires j in Run(INIT, steps).clients && !Run(INIT, steps).clients[j].BeforePublish()
    ensures var q := Run(INIT, steps).q;
      (exists n :: n in q.dir && q.dir[n].body == j) != (exists m :: m in q.returned && m.body == j)
  {
    var s := Run(INIT, steps);
    InitInvariants();
    RunKeepsInvariants(INIT, steps);
    assert ClientOk(s, j);
    var m :| m in s.q.published && m.body == j;
    var w :| Q.At(s.q, m, w);
    if n :| n in s.q.dir && s.q.dir[n].body == j { InDirNotHandedOut(s, n); }
  }
}
