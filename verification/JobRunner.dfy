/** The client and the daemon as they are written, loops over shared stores, run while any number
    of other clients and daemons do the same (archcloud/src/ArchLab/Runner.py, runlab_daemon.py).
    Each takes its own steps of the protocol machine and no others. */
module JobRunner {
  import opened JobProtocol
  import Q = LocalQueue
  import P = LocalPubSub

  /** Steps that are not taken by the client of job `j`. */
  predicate NotClient(j: JobId, step: Step) {
    (step.Submit? || step.ClientStep?) ==> step.j != j
  }

  /** Steps that are not taken by daemon `d`. */
  predicate NotDaemon(d: DaemonId, step: Step) {
    && (step.DaemonStep? ==> step.d != d)
    && (step.PullStep? && !step.op.Publish? ==> step.op.p != d)
  }

  lemma {:induction false} OthersKeepClient(j: JobId, s: State, steps: seq<Step>)
    requires Possible(s, steps) && j in s.clients && forall k :: 0 <= k < |steps| ==> NotClient(j, steps[k])
    ensures j in Run(s, steps).clients && Run(s, steps).clients[j] == s.clients[j]
    decreases |steps|
  {
    if steps != [] {
      assert NotClient(j, steps[0]);
      OthersKeepClient(j, Apply(s, steps[0]), steps[1..]);
    }
  }

  lemma {:induction false} OthersKeepDaemon(d: DaemonId, s: State, steps: seq<Step>)
    requires Possible(s, steps) && forall k :: 0 <= k < |steps| ==> NotDaemon(d, steps[k])
    ensures Run(s, steps).D(d) == s.D(d) && Run(s, steps).q.Of(d) == s.q.Of(d)
    decreases |steps|
  {
    if steps != [] {
      hide Apply, Enabled;
      assert NotDaemon(d, steps[0]);
      OtherKeepsDaemon(d, s, steps[0]);
      OthersKeepDaemon(d, Apply(s, steps[0]), steps[1..]);
    }
  }

  lemma OtherKeepsDaemon(d: DaemonId, s: State, step: Step)
    requires Enabled(s, step) && NotDaemon(d, step)
    ensures Apply(s, step).D(d) == s.D(d) && Apply(s, step).q.Of(d) == s.q.Of(d)
  {
    hide NextClient, ClientPut, NextStage, DaemonPut, NewRun;
    if step.PullStep? {
      P.OtherKeepsMine(d, s.q, step.op);
    }
  }

  /** What a daemon looks up for its job is there. */
  lemma DaemonFinds(steps: seq<Step>, d: DaemonId)
    requires Possible(INIT, steps) && Run(INIT, steps).D(d).job.Some?
    ensures var s := Run(INIT, steps); s.D(d).job.value in s.subs && s.D(d).job.value in s.records
    ensures var s := Run(INIT, steps); s.D(d).stage.Stored() ==> s.D(d).job.value in s.results
  {
    InitInvariants();
    RunKeepsInvariants(INIT, steps);
    var s := Run(INIT, steps);
    assert DaemonOk(s, d) && ClientOk(s, s.D(d).job.value);
  }

  lemma ClientFinds(steps: seq<Step>, j: JobId)
    requires Possible(INIT, steps) && j in Run(INIT, steps).clients && !Run(INIT, steps).clients[j].BeforePush()
    ensures j in Run(INIT, steps).records
  {
    InitInvariants();
    RunKeepsInvariants(INIT, steps);
    assert ClientOk(Run(INIT, steps), j);
  }

  /** How many operations the client of job `j` has made. */
  function ClientSteps(j: JobId, steps: seq<Step>): nat {
    if steps == [] then 0
    else
      var n := |steps| - 1;
      ClientSteps(j, steps[..n]) + if steps[n].ClientStep? && steps[n].j == j then 1 else 0
  }

  lemma OneMore(j: JobId, steps: seq<Step>, step: Step)
    ensures ClientSteps(j, steps + [step]) == ClientSteps(j, steps) + if step.ClientStep? && step.j == j then 1 else 0
  {
    assert (steps + [step])[..|steps|] == steps;
  }

  lemma {:induction false} PrefixPossible(s: State, steps: seq<Step>, k: nat)
    requires Possible(s, steps) && k <= |steps|
    ensures Possible(s, steps[..k])
    decreases k
  {
    if k > 0 {
      hide Apply, Enabled;
      PrefixPossible(Apply(s, steps[0]), steps[1..], k - 1);
      assert steps[..k][1..] == steps[1..][..k - 1];
    }
  }

  /** The state after the first `k` steps. */
  ghost function StateAfter(h: seq<Step>, k: nat): State
    requires Possible(INIT, h) && k <= |h|
  {
    PrefixPossible(INIT, h, k);
    Run(INIT, h[..k])
  }

  predicate HasStatus(s: State, j: JobId, status: Status) {
    j in s.records && s.records[j].status == status
  }

  datatype Outcome = Finished(result: Result) | UserError | ArchlabError

  /** The stores that everybody shares. */
  class Site {
    var submissions: map<JobId, Submission>
    var results: map<JobId, Result>
    var records: map<JobId, Record>
    var subscribed: bool
    var dir: map<Q.Name, Q.Message>
    var now: nat
    /** All job ids and file names so far are below this one. */
    var nextUuid: nat
    /** The steps taken so far by everybody, and the state of the machine they lead to. */
    ghost var history: seq<Step>
    ghost var s: State

    ghost predicate OnTrack()
      reads this
    {
      Possible(INIT, history) && s == Run(INIT, history)
    }

    ghost predicate Stores()
      reads this
    {
      && submissions == s.subs && results == s.results && records == s.records
      && subscribed == s.subscribed && dir == s.q.dir
      && (forall j :: j in s.clients ==> j < nextUuid) && (forall n :: n in s.q.used ==> n < nextUuid)
    }

    ghost predicate Valid()
      reads this
    {
      OnTrack() && Stores()
    }

    constructor ()
      ensures Valid() && history == []
    {
      submissions, results, records, subscribed, dir := map[], map[], map[], false, map[];
      now, nextUuid, history, s := 0, 0, [], INIT;
    }

    ghost method Advance(step: Step)
      requires OnTrack() && Enabled(s, step)
      modifies this`history, this`s
      ensures OnTrack() && history == old(history) + [step] && s == Apply(old(s), step)
    {
      hide Possible, Run, Apply, Enabled;
      Extend(INIT, history, step);
      s := Apply(s, step);
      history := history + [step];
    }

    /** The next operation of the client of job `j`. */
    ghost method ClientGoes(j: JobId, stop: bool)
      requires OnTrack() && j in s.clients && !s.clients[j].Over() && nextUuid !in s.q.used
      modifies this`history, this`s
      ensures OnTrack() && history == old(history) + [ClientStep(j, nextUuid, stop)]
      ensures s == ClientNext(old(s), j, nextUuid, stop)
      ensures ClientSteps(j, history) == ClientSteps(j, old(history)) + 1
    {
      OneMore(j, history, ClientStep(j, nextUuid, stop));
      Advance(ClientStep(j, nextUuid, stop));
    }

    /** Whatever the others do between two operations of the client of job `j`. */
    method MeanwhileClient(j: JobId)
      requires Valid() && j in s.clients
      modifies this
      ensures Valid() && old(history) <= history && j in s.clients && s.clients[j] == old(s.clients[j])
      ensures forall k :: |old(history)| <= k < |history| ==> NotClient(j, history[k])
      ensures ClientSteps(j, history) == ClientSteps(j, old(history)) && now >= old(now)
    {
    }

    /** Whatever the others do between two operations of daemon `d`. */
    method MeanwhileDaemon(d: DaemonId)
      requires Valid()
      modifies this
      ensures Valid() && old(history) <= history && s.D(d) == old(s.D(d)) && s.q.Of(d) == old(s.q.Of(d))
      ensures forall k :: |old(history)| <= k < |history| ==> NotDaemon(d, history[k])
    {
    }

    method Sleep(seconds: nat)
      modifies this`now
      ensures now >= old(now) + seconds && (old(Valid()) ==> Valid())
    {
      now := now + seconds;
    }

    /** A new job id; the subscription is made first, so that nothing published is lost. */
    method NewJob(sub: Submission) returns (j: JobId)
      requires Valid()
      modifies this`subscribed, this`nextUuid, this`history, this`s
      ensures Valid() && history == old(history) + [Submit(j, sub)] && j !in old(s.clients)
      ensures ClientSteps(j, history) == ClientSteps(j, old(history))
      ensures j in s.clients && s.clients[j] == Storing(sub) && subscribed
    {
      hide Possible, Run;
      subscribed := true;
      j, nextUuid := nextUuid, nextUuid + 1;
      OneMore(j, history, Submit(j, sub));
      Advance(Submit(j, sub));
    }

    method WriteSubmission(j: JobId, sub: Submission)
      requires Valid() && j in s.clients && s.clients[j] == Storing(sub)
      modifies this`submissions, this`history, this`s
      ensures Valid() && old(history) <= history && j in s.clients && s.clients[j] == Pushing(sub)
      ensures submissions == old(submissions)[j := sub] && ClientSteps(j, history) == ClientSteps(j, old(history)) + 1
    {
      hide Possible, Run;
      submissions := submissions[j := sub];
      ClientGoes(j, false);
    }

    method Push(j: JobId, ghost sub: Submission)
      requires Valid() && j in s.clients && s.clients[j] == Pushing(sub)
      modifies this`records, this`history, this`s
      ensures Valid() && old(history) <= history && j in s.clients && s.clients[j] == Publishing(sub)
      ensures records == old(records)[j := Record(Submitted, false)]
      ensures ClientSteps(j, history) == ClientSteps(j, old(history)) + 1
    {
      hide Possible, Run;
      records := records[j := Record(Submitted, false)];
      ClientGoes(j, false);
    }

    method Publish(j: JobId, ghost sub: Submission)
      requires Valid() && j in s.clients && s.clients[j] == Publishing(sub)
      modifies this`dir, this`nextUuid, this`history, this`s
      ensures Valid() && old(history) <= history && j in s.clients && s.clients[j] == Appearing(sub)
      ensures dir == if subscribed then old(dir)[old(nextUuid) := Q.Message(old(nextUuid), j)] else old(dir)
      ensures ClientSteps(j, history) == ClientSteps(j, old(history)) + 1
    {
      hide Possible, Run;
      if subscribed { dir := dir[nextUuid := Q.Message(nextUuid, j)]; }
      ClientGoes(j, false);
      nextUuid := nextUuid + 1;
    }

    /** A read by the client; `stop` says that it has waited long enough. */
    method ClientReads(j: JobId, stop: bool) returns (rec: Option<Record>)
      requires Valid() && j in s.clients && (s.clients[j].Appearing? || s.clients[j].Polling?)
      modifies this`history, this`s
      ensures Valid() && history == old(history) + [ClientStep(j, nextUuid, stop)]
      ensures ClientSteps(j, history) == ClientSteps(j, old(history)) + 1
      ensures rec == if j in records then Some(records[j]) else None
      ensures j in s.clients && s.clients[j] == NextClient(old(s), j, old(s.clients[j]), stop)
    {
      hide Possible, Run;
      rec := if j in records then Some(records[j]) else None;
      ClientGoes(j, stop);
    }

    method ClientReadsToUpdate(j: JobId) returns (rec: Record)
      requires Valid() && j in s.clients && (s.clients[j].TimingOut? || s.clients[j].Confirming?)
      modifies this`history, this`s
      ensures Valid() && old(history) <= history && j in s.clients
      ensures s.clients[j] == if old(s.clients[j]).TimingOut? then TimingOutPut(old(s.clients[j]).sub, rec)
                              else ConfirmingPut(old(s.clients[j]).sub, old(s.clients[j]).seen, rec)
      ensures j in old(records) && rec == old(records)[j]
    {
      ClientFinds(history, j);
      hide Possible, Run;
      rec := records[j];
      ClientGoes(j, false);
    }

    method ClientWrites(j: JobId, rec: Record)
      requires Valid() && j in s.clients && (s.clients[j].TimingOutPut? || s.clients[j].ConfirmingPut?)
      requires s.clients[j].rec == rec
      modifies this`records, this`history, this`s
      ensures Valid() && old(history) <= history && j in s.clients
      ensures s.clients[j] == if old(s.clients[j]).TimingOutPut? then TimedOut(old(s.clients[j]).sub)
                              else Fetching(old(s.clients[j]).sub, old(s.clients[j]).seen)
      ensures records == old(records)[j := rec.(status := Completed)]
    {
      hide Possible, Run;
      records := records[j := rec.(status := Completed)];
      ClientGoes(j, false);
    }

    /** ds.update by the client: a read, and later a write of what was read with another status. */
    method ClientUpdates(j: JobId)
      requires Valid() && j in s.clients && (s.clients[j].TimingOut? || s.clients[j].Confirming?)
      modifies this
      ensures Valid() && old(history) <= history && j in s.clients && now >= old(now)
      ensures s.clients[j] == if old(s.clients[j]).TimingOut? then TimedOut(old(s.clients[j]).sub)
                              else Fetching(old(s.clients[j]).sub, old(s.clients[j]).seen)
      ensures j in old(records) && j in records && records[j] == old(records)[j].(status := Completed)
    {
      hide *;
      var rec := ClientReadsToUpdate(j);
      MeanwhileClient(j);
      ClientWrites(j, rec);
    }

    /** Reads the result blob, which is there, and the archive entry, which is too. */
    method Fetch(j: JobId, seen: Record, ghost sub: Submission) returns (r: Result)
      requires Valid() && j in s.clients && s.clients[j] == Fetching(sub, seen)
      modifies this`history, this`s
      ensures Valid() && old(history) <= history && r.of == sub
      ensures j in s.clients && s.clients[j] == Done(sub, r) && OnlyResult(s, j, r)
    {
      ghost var i := ClientGetsItsResult(history, j, nextUuid, false);
      hide Possible, Run;
      r := results[j];
      ClientGoes(j, false);
      assert OnlyRun(s, i);
    }
  }

  /** No other execution is of the same job. */
  ghost predicate OnlyRun(s: State, i: nat)
    requires i < |s.runs|
  {
    forall k :: 0 <= k < |s.runs| && s.runs[k].job == s.runs[i].job ==> k == i
  }

  /** The job was executed exactly once, with this result. */
  ghost predicate OnlyResult(s: State, j: JobId, r: Result) {
    exists i :: 0 <= i < |s.runs| && s.runs[i].job == j && s.runs[i].result == Some(r) && OnlyRun(s, i)
  }

  /** Waits until the record appears in the datastore; gives up when the 21st read finds nothing. */
  method WaitForJob(site: Site, j: JobId, ghost sub: Submission) returns (found: bool, c: nat)
    requires site.Valid() && j in site.s.clients && site.s.clients[j] == Appearing(sub)
    modifies site
    ensures site.Valid() && old(site.history) <= site.history && j in site.s.clients
    ensures site.s.clients[j] == if found then Polling(sub) else Failed(sub)
    ensures if found then c <= 20 && j in site.records else c == 21
    ensures site.now >= old(site.now)
    ensures ClientSteps(j, site.history) == ClientSteps(j, old(site.history)) + if found then c + 1 else 21
  {
    hide Possible, Run;
    c := 0;
    while true
      invariant site.Valid() && old(site.history) <= site.history
      invariant c <= 20 && j in site.s.clients && site.s.clients[j] == Appearing(sub)
      invariant site.now >= old(site.now) && ClientSteps(j, site.history) == ClientSteps(j, old(site.history)) + c
      decreases 20 - c
    {
      site.MeanwhileClient(j);
      var rec := site.ClientReads(j, c + 1 > 20);
      if rec.Some? { return true, c; }
      c := c + 1;
      if c > 20 { return false, c; }
      site.Sleep(0);
    }
  }

  /** Confirms the completion and fetches the result. */
  method Collect(site: Site, j: JobId, rec: Record, ghost sub: Submission) returns (r: Result)
    requires site.Valid() && j in site.s.clients && site.s.clients[j] == Confirming(sub, rec)
    modifies site
    ensures site.Valid() && old(site.history) <= site.history && r.of == sub && site.now >= old(site.now)
    ensures j in site.s.clients && site.s.clients[j] == Done(sub, r) && OnlyResult(site.s, j, r)
  {
    hide *;
    site.MeanwhileClient(j);
    site.ClientUpdates(j);
    site.MeanwhileClient(j);
    r := site.Fetch(j, rec, sub);
  }

  /** Marks the job as over. */
  method Cancel(site: Site, j: JobId, ghost sub: Submission)
    requires site.Valid() && j in site.s.clients && site.s.clients[j] == TimingOut(sub)
    modifies site
    ensures site.Valid() && old(site.history) <= site.history && site.now >= old(site.now)
    ensures j in site.s.clients && site.s.clients[j] == TimedOut(sub)
  {
    hide *;
    site.MeanwhileClient(j);
    site.ClientUpdates(j);
  }

  /** How a client that is not waiting any more has ended. */
  ghost predicate Ended(s: State, j: JobId, sub: Submission, r: Outcome) {
    && j in s.clients && s.clients[j].Over()
    && (r.Finished? <==> s.clients[j].Done?)
    && (r.UserError? <==> s.clients[j].TimedOut?)
    && (r.Finished? ==> r.result.of == sub && OnlyResult(s, j, r.result))
  }

  /** A read of a record: what was found, when, and after which steps. */
  datatype Look = Look(rec: Option<Record>, time: nat, past: seq<Step>)

  /** The client of job `j` made this read between two histories; it stops if `limit` is over. */
  ghost predicate LookedAt(j: JobId, look: Look, limit: nat, before: seq<Step>, after: seq<Step>) {
    && before <= look.past < after && Possible(INIT, look.past)
    && look.rec == (var s := Run(INIT, look.past); if j in s.records then Some(s.records[j]) else None)
    && var step := after[|look.past|]; step.ClientStep? && step.j == j && (step.stop <==> look.time > limit)
  }

  /** What a read means: over the limit a user error, whatever was found; within it a result if the
      record says COMPLETED, an error if it says ERROR or is not there, and another round otherwise. */
  ghost predicate Verdict(look: Look, limit: nat, r: Option<Outcome>) {
    if look.time > limit then r == Some(UserError)
    else
      match look.rec
      case None => r == Some(ArchlabError)
      case Some(Record(Completed, _)) => r.Some? && r.value.Finished?
      case Some(Record(Error, _)) => r == Some(ArchlabError)
      case _ => r.None?
  }

  /** Where a look leaves the client. */
  ghost function AfterLook(sub: Submission, look: Look, limit: nat): Client {
    if look.time > limit then TimingOut(sub)
    else
      match look.rec
      case None => Failed(sub)
      case Some(rec) =>
        match rec.status
        case Completed => Confirming(sub, rec)
        case Error => Failed(sub)
        case _ => Polling(sub)
  }

  /** The read at the head of the polling loop. */
  method LookOnce(site: Site, j: JobId, ghost sub: Submission, startTime: nat, timeout: nat)
    returns (rec: Option<Record>, over: bool, ghost look: Look)
    requires site.Valid() && j in site.s.clients && site.s.clients[j] == Polling(sub) && startTime <= site.now
    modifies site
    ensures site.Valid() && old(site.history) <= site.history && j in site.s.clients
    ensures LookedAt(j, look, startTime + timeout, old(site.history), site.history)
    ensures old(site.now) <= look.time == site.now && look.rec == rec && (over <==> look.time > startTime + timeout)
    ensures site.s.clients[j] == AfterLook(sub, look, startTime + timeout)
  {
    hide *;
    site.MeanwhileClient(j);
    var runningTime := site.now - startTime;
    over := runningTime > timeout;
    ghost var past, name, s := site.history, site.nextUuid, site.s;
    StoresAre(site);
    rec := site.ClientReads(j, over);
    look := Look(rec, site.now, past);
    LookIs(j, sub, look, startTime + timeout, s, name, over, old(site.history), site.history);
  }

  lemma StoresAre(site: Site)
    requires site.Valid()
    ensures Possible(INIT, site.history) && site.s == Run(INIT, site.history) && site.records == site.s.records
  {
  }

  lemma LookIs(j: JobId, sub: Submission, look: Look, limit: nat, s: State, name: Q.Name, stop: bool,
               before: seq<Step>, after: seq<Step>)
    requires before <= look.past && Possible(INIT, look.past) && s == Run(INIT, look.past)
    requires after == look.past + [ClientStep(j, name, stop)]
    requires look.rec == (if j in s.records then Some(s.records[j]) else None) && (stop <==> look.time > limit)
    ensures LookedAt(j, look, limit, before, after)
    ensures NextClient(s, j, Polling(sub), stop) == AfterLook(sub, look, limit)
  {
    hide Possible, Run;
  }

  lemma EndedAs(s: State, j: JobId, sub: Submission, c: Client)
    requires j in s.clients && s.clients[j] == c
    ensures c == TimedOut(sub) ==> Ended(s, j, sub, UserError)
    ensures c == Failed(sub) ==> Ended(s, j, sub, ArchlabError)
    ensures c.Done? && c.sub == sub && c.result.of == sub && OnlyResult(s, j, c.result) ==>
      Ended(s, j, sub, Finished(c.result))
  {
    hide OnlyResult;
  }

  lemma LookedLater(j: JobId, look: Look, limit: nat, before: seq<Step>, after: seq<Step>, later: seq<Step>)
    requires LookedAt(j, look, limit, before, after) && after <= later
    ensures LookedAt(j, look, limit, before, later)
  {
  }

  /** One round of the polling loop: what the client returns or raises, if it does. */
  method PollOnce(site: Site, j: JobId, ghost sub: Submission, startTime: nat, timeout: nat)
    returns (r: Option<Outcome>, ghost look: Look)
    requires site.Valid() && j in site.s.clients && site.s.clients[j] == Polling(sub) && startTime <= site.now
    modifies site
    ensures site.Valid() && old(site.history) <= site.history && j in site.s.clients
    ensures r.Some? ==> Ended(site.s, j, sub, r.value)
    ensures r.None? ==> site.s.clients[j] == Polling(sub) && site.now <= startTime + timeout
    ensures LookedAt(j, look, startTime + timeout, old(site.history), site.history)
    ensures old(site.now) <= look.time <= site.now && Verdict(look, startTime + timeout, r)
  {
    hide Possible, Run, OnlyResult, LookedAt, Ended, Site.Valid;
    var jobData, over, seen := LookOnce(site, j, sub, startTime, timeout);
    look := seen;
    ghost var h := site.history;
    r := None;
    if over {
      Cancel(site, j, sub);
      r := Some(UserError);
    } else if jobData.None? {
      r := Some(ArchlabError);
    } else {
      match jobData.value.status {
        case Completed =>
          var result := Collect(site, j, jobData.value, sub);
          r := Some(Finished(result));
        case Error => r := Some(ArchlabError);
        case Started =>
        case Submitted =>
      }
    }
    EndedAs(site.s, j, sub, site.s.clients[j]);
    LookedLater(j, look, startTime + timeout, old(site.history), h, site.history);
  }

  /** The polling loop; `look` is the last read, which decides. */
  method Poll(site: Site, j: JobId, ghost sub: Submission, timeout: nat) returns (r: Outcome, ghost look: Look)
    requires site.Valid() && j in site.s.clients && site.s.clients[j] == Polling(sub)
    modifies site
    ensures site.Valid() && old(site.history) <= site.history && Ended(site.s, j, sub, r)
    ensures LookedAt(j, look, old(site.now) + timeout, old(site.history), site.history)
    ensures old(site.now) <= look.time <= site.now && Verdict(look, old(site.now) + timeout, Some(r))
  {
    hide *;
    var startTime := site.now;
    while true
      invariant site.Valid() && old(site.history) <= site.history && site.now >= startTime
      invariant j in site.s.clients && site.s.clients[j] == Polling(sub)
      decreases startTime + timeout - site.now
    {
      ghost var past := site.history;
      var polled, last := PollOnce(site, j, sub, startTime, timeout);
      if polled.Some? {
        LookedSince(j, last, startTime + timeout, old(site.history), past, site.history);
        return polled.value, last;
      }
      site.Sleep(1);
    }
  }

  lemma LookedSince(j: JobId, look: Look, limit: nat, earlier: seq<Step>, before: seq<Step>, after: seq<Step>)
    requires LookedAt(j, look, limit, before, after) && earlier <= before
    ensures LookedAt(j, look, limit, earlier, after)
  {
  }

  /** The operations that submit a job: the submission, the record, the message. */
  method SubmitJob(site: Site, sub: Submission) returns (j: JobId)
    requires site.Valid()
    modifies site
    ensures site.Valid() && old(site.history) <= site.history && site.now >= old(site.now)
    ensures j !in old(site.s.clients) && j in site.s.clients && site.s.clients[j] == Appearing(sub)
    ensures ClientSteps(j, site.history) == ClientSteps(j, old(site.history)) + 3
  {
    hide *;
    j := site.NewJob(sub);
    site.MeanwhileClient(j);
    site.WriteSubmission(j, sub);
    site.MeanwhileClient(j);
    site.Push(j, sub);
    site.MeanwhileClient(j);
    site.Publish(j, sub);
  }

  /** run_submission_remotely ends, and if it returns a result, that is the result of the one
      execution of its job, on what was submitted.  Either the record never appeared, after three
      operations that submit the job and 21 reads, or the last look at it, after the polling
      began, decides. */
  method RunSubmissionRemotely(site: Site, sub: Submission, timeout: nat)
    returns (j: JobId, r: Outcome, ghost began: nat, ghost look: Option<Look>)
    requires site.Valid()
    modifies site
    ensures site.Valid() && old(site.history) <= site.history && j !in old(site.s.clients)
    ensures Ended(site.s, j, sub, r)
    ensures look.None? ==>
      r == ArchlabError && ClientSteps(j, site.history) == ClientSteps(j, old(site.history)) + 24
    ensures look.Some? ==>
      && LookedAt(j, look.value, began + timeout, old(site.history), site.history)
      && Verdict(look.value, began + timeout, Some(r))
      && old(site.now) <= began <= look.value.time <= site.now
    ensures r.UserError? ==> site.now > old(site.now) + timeout
  {
    hide *;
    j := SubmitJob(site, sub);
    var found, _ := WaitForJob(site, j, sub);
    began, look := site.now, None;
    if !found {
      GaveUp(site.s, j, sub);
      return j, ArchlabError, began, look;
    }
    ghost var past := site.history;
    var outcome, last := Poll(site, j, sub, timeout);
    LookedSince(j, last, began + timeout, old(site.history), past, site.history);
    OverTime(last, began + timeout, outcome);
    r, look := outcome, Some(last);
  }

  lemma OverTime(look: Look, limit: nat, r: Outcome)
    requires Verdict(look, limit, Some(r))
    ensures r.UserError? ==> look.time > limit
  {
  }

  lemma GaveUp(s: State, j: JobId, sub: Submission)
    requires j in s.clients && s.clients[j] == Failed(sub)
    ensures Ended(s, j, sub, ArchlabError)
  {
  }

  // ---------- the daemon ----------

  /** What the daemon's pull returned or raised is what the machine delivered to it. */
  ghost predicate Matches(p: Q.Puller, pulled: P.Pulled) {
    match pulled
    case Messages(got) => p == Q.Returned(got)
    case OSError => p == Q.Raised
  }

  /** The record says COMPLETED, and the result stored is that of the one execution of the job, on
      what its client submitted. */
  ghost predicate Completion(s: State, j: JobId) {
    && j in s.records && s.records[j] == Record(Completed, true)
    && j in s.results && j in s.subs && s.results[j].of == s.subs[j] && OnlyResult(s, j, s.results[j])
  }

  lemma ResultIsOnly(steps: seq<Step>, j: JobId)
    requires Possible(INIT, steps) && j in Run(INIT, steps).results
    ensures var s := Run(INIT, steps); j in s.subs && s.results[j].of == s.subs[j] && OnlyResult(s, j, s.results[j])
  {
    InitInvariants();
    RunKeepsInvariants(INIT, steps);
    var s := Run(INIT, steps);
    assert ResultOk(s, j) && HeldOnce(s);
    var i :| 0 <= i < |s.runs| && s.runs[i].job == j && s.runs[i].result == Some(s.results[j]);
    assert OnlyRun(s, i);
  }

  /** Daemon `d` left job `j` at step `k`: what it read then was not SUBMITTED before it had run the
      job, or not STARTED after. */
  ghost predicate LeftAt(d: DaemonId, j: JobId, h: seq<Step>, k: nat)
    requires Possible(INIT, h) && k < |h|
  {
    && h[k].DaemonStep? && h[k].d == d && !h[k].raises
    && var s := StateAfter(h, k);
       || (s.D(d).stage.Checking? && !HasStatus(s, j, Submitted))
       || (s.D(d).stage.Rechecking? && !HasStatus(s, j, Started))
  }

  ghost predicate LeftSince(d: DaemonId, j: JobId, from: nat, h: seq<Step>) {
    Possible(INIT, h) && exists k :: from <= k < |h| && LeftAt(d, j, h, k)
  }

  lemma LeftNow(d: DaemonId, j: JobId, h: seq<Step>)
    requires h != [] && Possible(INIT, h) && Possible(INIT, h[..|h| - 1]) && LeftAt(d, j, h, |h| - 1)
    ensures LeftSince(d, j, |h| - 1, h)
  {
    hide Possible, LeftAt;
  }

  lemma LeftEarlier(d: DaemonId, j: JobId, from: nat, later: nat, h: seq<Step>)
    requires from <= later
    ensures LeftSince(d, j, later, h) ==> LeftSince(d, j, from, h)
  {
    hide Possible, LeftAt;
  }

  /** The last step of a run. */
  lemma {:induction false} LastStep(s: State, steps: seq<Step>)
    requires Possible(s, steps) && steps != []
    ensures var n := |steps| - 1;
      && Possible(s, steps[..n]) && Enabled(Run(s, steps[..n]), steps[n])
      && Run(s, steps) == Apply(Run(s, steps[..n]), steps[n])
    decreases |steps|
  {
    hide Apply, Enabled;
    var n := |steps| - 1;
    if n == 0 {
      assert steps[1..] == [];
    } else {
      LastStep(Apply(s, steps[0]), steps[1..]);
      assert steps[..n][1..] == steps[1..][..n - 1];
    }
  }

  lemma StepGrows(s: State, step: Step)
    requires Enabled(s, step)
    ensures s.runs <= Apply(s, step).runs && s.results.Keys <= Apply(s, step).results.Keys
  {
    hide NextClient, ClientPut, NextStage, DaemonPut, NewRun, Handler, AfterPull;
  }

  /** Executions are only added, and results are never removed. */
  lemma {:induction false} RunGrows(h: seq<Step>, h': seq<Step>)
    requires Possible(INIT, h) && Possible(INIT, h') && h <= h'
    ensures Run(INIT, h).runs <= Run(INIT, h').runs && Run(INIT, h).results.Keys <= Run(INIT, h').results.Keys
    decreases |h'|
  {
    if |h| < |h'| {
      hide Possible, Run, Apply, Enabled;
      LastStep(INIT, h');
      RunGrows(h, h'[..|h'| - 1]);
      StepGrows(Run(INIT, h'[..|h'| - 1]), h'[|h'| - 1]);
    } else {
      assert h == h';
    }
  }

  /** Whatever anybody does, a stored result never changes. */
  lemma ResultStays(h: seq<Step>, h': seq<Step>, j: JobId)
    requires Possible(INIT, h) && Possible(INIT, h') && h <= h' && j in Run(INIT, h).results
    ensures j in Run(INIT, h').results && Run(INIT, h').results[j] == Run(INIT, h).results[j]
  {
    hide Possible, Run;
    RunGrows(h, h');
    ResultIsOnly(h, j);
    ResultIsOnly(h', j);
    var s, s' := Run(INIT, h), Run(INIT, h');
    var i: nat :| i < |s.runs| && s.runs[i].job == j && s.runs[i].result == Some(s.results[j]) && OnlyRun(s, i);
    assert s'.runs[i] == s.runs[i];
  }

  /** How a round ends: the job was left to others, completed with its result kept, or something raised. */
  datatype End = Left | Kept | Threw

  class Daemon {
    const site: Site
    const id: DaemonId
    /** job_id, which outlives the round in which it was pulled. */
    var job: Option<JobId>

    ghost predicate Valid()
      reads this, site
    {
      site.Valid() && site.s.D(id).job == job
    }

    /** Between pulls, at a stage of the loop, `past` being an earlier history. */
    ghost predicate At(stage: Stage, past: seq<Step>)
      reads this, site
    {
      Valid() && site.s.q.Of(id).Idle? && site.s.D(id).stage == stage && past <= site.history
    }

    /** Busy with job `j`. */
    ghost predicate On(j: JobId, stage: Stage)
      reads this, site
    {
      job == Some(j) && At(stage, []) && !stage.Pulling?
    }

    constructor (site: Site, id: DaemonId)
      requires site.Valid() && site.s.D(id).job.None?
      ensures this.site == site && this.id == id && Valid()
    {
      this.site, this.id, job := site, id, None;
    }

    /** The next operation of the daemon: what it writes has been written, and it may have raised. */
    ghost method Goes(output: nat, raises: bool)
      requires site.OnTrack() && !site.s.D(id).stage.Pulling?
      modifies site`history, site`s
      ensures site.OnTrack() && site.history == old(site.history) + [DaemonStep(id, output, raises)]
      ensures site.s == DaemonNext(old(site.s), id, output, raises)
    {
      site.Advance(DaemonStep(id, output, raises));
    }

    /** If there is trouble, any operation may raise without having taken effect. */
    method Raises(trouble: bool) returns (raised: bool)
      requires job.Some? && On(job.value, site.s.D(id).stage)
      modifies site
      ensures raised ==> trouble
      ensures At(if raised then Handler(old(site.s.D(id).stage)) else old(site.s.D(id).stage), old(site.history))
    {
      hide Possible, Run;
      site.MeanwhileDaemon(id);
      raised := Strikes(trouble);
      if raised { Goes(0, true); }
    }

    /** Whether an operation raises is not up to the daemon. */
    method Strikes(trouble: bool) returns (raised: bool)
      ensures raised ==> trouble
    {
      raised := trouble;
    }

    /** ds.pull and the check that nobody has taken the job. */
    method Check(j: JobId) returns (submitted: bool)
      requires On(j, Checking)
      modifies site
      ensures At(if submitted then Reading else Pulling, old(site.history))
      ensures submitted <==> j in old(site.records) && old(site.records)[j].status == Submitted
      ensures !submitted ==> LeftSince(id, j, |old(site.history)|, site.history)
    {
      hide Possible, Run;
      submitted := j in site.records && site.records[j].status == Submitted;
      Goes(0, false);
      assert site.history[..|old(site.history)|] == old(site.history);
      if !submitted { LeftNow(id, j, site.history); }
    }

    method ReadSubmission(j: JobId) returns (sub: Submission)
      requires On(j, Reading)
      modifies site
      ensures At(Starting(sub), old(site.history))
    {
      DaemonFinds(site.history, id);
      hide Possible, Run;
      sub := site.submissions[j];
      Goes(0, false);
    }

    /** The read of an update; the record is there. */
    method ReadToUpdate(j: JobId) returns (rec: Record)
      requires On(j, site.s.D(id).stage)
      requires var g := site.s.D(id).stage; g.Starting? || g.Completing? || g.Failing?
      modifies site
      ensures At(match old(site.s.D(id).stage)
                 case Starting(sub) => StartingPut(sub, rec)
                 case Completing => CompletingPut(rec)
                 case _ => FailingPut(rec), old(site.history))
    {
      DaemonFinds(site.history, id);
      hide Possible, Run;
      rec := site.records[j];
      Goes(0, false);
    }

    /** The write of an update. */
    method Put(j: JobId, rec: Record)
      requires On(j, site.s.D(id).stage)
      requires var g := site.s.D(id).stage; g.StartingPut? || g.CompletingPut? || g.FailingPut?
      requires rec == DaemonPut(map[], j, site.s.D(id).stage)[j]
      modifies site
      ensures At(if old(site.s.D(id).stage).StartingPut? then Running(old(site.s.D(id).stage).sub) else Pulling,
                 old(site.history))
      ensures site.records == old(site.records)[j := rec]
      ensures old(site.s.D(id).stage).CompletingPut? ==> j in site.results
    {
      DaemonFinds(site.history, id);
      hide Possible, Run;
      site.records := site.records[j := rec];
      Goes(0, false);
    }

    /** run_job; what it produces is up to the job. */
    method RunJob(j: JobId, sub: Submission, output: nat) returns (r: Result)
      requires On(j, Running(sub))
      modifies site
      ensures At(Rechecking(r), old(site.history)) && r == Result(sub, output)
      ensures site.s.runs == old(site.s.runs) + [Execution(id, j, Some(r))]
    {
      hide Possible, Run;
      r := Result(sub, output);
      Goes(output, false);
    }

    /** The job may have been completed by someone else meanwhile. */
    method Recheck(j: JobId, r: Result) returns (mine: bool)
      requires On(j, Rechecking(r))
      modifies site
      ensures At(if mine then StoringResult(r) else Pulling, old(site.history))
      ensures mine <==> j in old(site.records) && old(site.records)[j].status == Started
      ensures !mine ==> LeftSince(id, j, |old(site.history)|, site.history)
    {
      DaemonFinds(site.history, id);
      hide Possible, Run;
      mine := site.records[j].status == Started;
      Goes(0, false);
      assert site.history[..|old(site.history)|] == old(site.history);
      if !mine { LeftNow(id, j, site.history); }
    }

    method StoreResult(j: JobId, r: Result)
      requires On(j, StoringResult(r))
      modifies site
      ensures At(Completing, old(site.history)) && j in site.results && site.results[j] == r
    {
      hide Possible, Run;
      site.results := site.results[j := r];
      Goes(0, false);
    }

    /** ds.update with a new status: a read, and later a write.  Does it raise? */
    method Update(j: JobId, status: Status, archive: bool, trouble: bool) returns (raised: bool)
      requires On(j, site.s.D(id).stage)
      requires match site.s.D(id).stage
               case Starting(_) => status == Status.Started && !archive
               case Completing => status == Status.Completed && archive
               case Failing => status == Status.Error && !archive
               case _ => false
      modifies site
      ensures At(if raised then Handler(old(site.s.D(id).stage))
                 else if old(site.s.D(id).stage).Starting? then Running(old(site.s.D(id).stage).sub) else Pulling,
                 old(site.history))
      ensures raised ==> trouble
      ensures !raised ==> j in site.records && site.records[j].status == status
      ensures !raised ==> (archive ==> site.records[j].archived)
      ensures !raised && old(site.s.D(id).stage).Completing? ==> j in site.results
    {
      hide Possible, Run, Site.Valid;
      raised := Raises(trouble);
      if raised { return; }
      var rec := ReadToUpdate(j);
      raised := Raises(trouble);
      if raised { return; }
      Put(j, Record(status, archive || rec.archived));
    }

    /** How the loop body that follows a pull can end, and what then is true of job `j`. */
    ghost predicate Ending(e: End, j: JobId, past: seq<Step>, trouble: bool)
      reads this, site
    {
      && At(if e.Threw? then Failing else Pulling, past)
      && (e.Threw? ==> trouble)
      && (e.Kept? ==> Completion(site.s, j) && j in site.results)
      && (e.Left? ==> LeftSince(id, j, |past|, site.history))
    }

    /** The part of the loop body that follows the pull of job `j`. */
    method Work(j: JobId, output: nat, trouble: bool) returns (e: End)
      requires On(j, Checking)
      modifies site
      ensures Ending(e, j, old(site.history), trouble)
      ensures e.Kept? ==> site.results[j].output == output
    {
      hide Possible, Run, Site.Valid, Completion, LeftSince, State.D, Q.Queue.Of;
      var raised := Raises(trouble);
      if raised { return Threw; }
      ghost var h := site.history;
      var submitted := Check(j);
      if !submitted {
        LeftEarlier(id, j, |old(site.history)|, |h|, site.history);
        return Left;
      }
      raised := Raises(trouble);
      if raised { return Threw; }
      var sub := ReadSubmission(j);
      h := site.history;
      e := Execute(j, sub, output, trouble);
      LeftEarlier(id, j, |old(site.history)|, |h|, site.history);
    }

    method Execute(j: JobId, sub: Submission, output: nat, trouble: bool) returns (e: End)
      requires On(j, Starting(sub))
      modifies site
      ensures Ending(e, j, old(site.history), trouble)
      ensures e.Kept? ==> site.results[j] == Result(sub, output)
    {
      hide Possible, Run, Site.Valid, Completion, LeftSince, State.D, Q.Queue.Of;
      var raised := Update(j, Started, false, trouble);
      if raised { return Threw; }
      raised := Raises(trouble);
      if raised { return Threw; }
      var result := RunJob(j, sub, output);
      ghost var h := site.history;
      e := Complete(j, result, trouble);
      LeftEarlier(id, j, |old(site.history)|, |h|, site.history);
    }

    method Complete(j: JobId, result: Result, trouble: bool) returns (e: End)
      requires On(j, Rechecking(result))
      modifies site
      ensures Ending(e, j, old(site.history), trouble)
      ensures e.Kept? ==> site.results[j] == result
    {
      hide Possible, Run, Site.Valid, Completion, LeftSince, State.D, Q.Queue.Of;
      var raised := Raises(trouble);
      if raised { return Threw; }
      ghost var h := site.history;
      var mine := Recheck(j, result);
      if !mine {
        LeftEarlier(id, j, |old(site.history)|, |h|, site.history);
        return Left;
      }
      e := Keep(j, result, trouble);
    }

    method Keep(j: JobId, result: Result, trouble: bool) returns (e: End)
      requires On(j, StoringResult(result))
      modifies site
      ensures Ending(e, j, old(site.history), trouble) && !e.Left?
      ensures e.Kept? ==> site.results[j] == result
    {
      hide Possible, Run, Site.Valid, Completion, LeftSince, State.D, Q.Queue.Of;
      var raised := Raises(trouble);
      if raised { return Threw; }
      StoreResult(j, result);
      ghost var h := site.history;
      ResultStored(j);
      raised := Update(j, Completed, true, trouble);
      if raised { return Threw; }
      CompletionHolds(j, result, h);
      return Kept;
    }

    lemma ResultStored(j: JobId)
      requires site.Valid() && j in site.results
      ensures Possible(INIT, site.history) && j in Run(INIT, site.history).results
      ensures Run(INIT, site.history).results[j] == site.results[j]
    {
    }

    lemma CompletionHolds(j: JobId, result: Result, h: seq<Step>)
      requires site.Valid() && j in site.results
      requires j in site.records && site.records[j] == Record(Completed, true)
      requires Possible(INIT, h) && h <= site.history
      requires j in Run(INIT, h).results && Run(INIT, h).results[j] == result
      ensures Completion(site.s, j) && site.results[j] == result
    {
      hide Possible, Run;
      ResultStays(h, site.history, j);
      ResultIsOnly(site.history, j);
    }

    /** The pull is over. */
    method TakePull(pulled: P.Pulled)
      requires Valid() && site.s.D(id).stage.Pulling? && Matches(site.s.q.Of(id), pulled)
      modifies this, site
      ensures job == if pulled.OSError? then old(job) else if pulled.got == [] then None else Some(pulled.got[0].body)
      ensures At(if pulled.OSError? then if job.Some? then Failing else Pulling
                 else if pulled.got == [] then Pulling else Checking, old(site.history))
    {
      hide Possible, Run;
      site.Advance(DaemonStep(id, 0, false));
      if pulled.Messages? {
        job := if pulled.got == [] then None else Some(pulled.got[0].body);
      }
    }

    /** One round of the loop after its pull.  Whatever raises, the daemon is ready for the next
        pull, and it has taken only steps of the machine.  A job that raised is recorded as ERROR,
        unless recording it raises too. */
    method Round(pulled: P.Pulled, output: nat, trouble: bool) returns (e: End, recorded: bool)
      requires Valid() && site.s.D(id).stage.Pulling? && Matches(site.s.q.Of(id), pulled)
      modifies this, site
      ensures At(Pulling, old(site.history))
      ensures job == if pulled.OSError? then old(job) else if pulled.got == [] then None else Some(pulled.got[0].body)
      ensures e.Threw? ==> trouble || pulled.OSError?
      ensures pulled.OSError? ==> e.Threw?
      ensures e.Kept? ==> job.Some? && Completion(site.s, job.value) && job.value in site.results
      ensures e.Kept? ==> site.results[job.value].output == output
      ensures e.Left? && job.Some? ==> LeftSince(id, job.value, |old(site.history)|, site.history)
      ensures recorded ==> e.Threw? && job.Some? && job.value in site.records && site.records[job.value].status == Error
      ensures e.Threw? && job.Some? && !recorded ==> trouble
    {
      hide Possible, Run, Site.Valid, Completion, LeftSince, State.D, Q.Queue.Of;
      TakePull(pulled);
      e, recorded := if pulled.OSError? then Threw else Left, false;
      if pulled.Messages? && job.Some? {
        ghost var h := site.history;
        e := Work(job.value, output, trouble);
        LeftEarlier(id, job.value, |old(site.history)|, |h|, site.history);
      }
      if e.Threw? && job.Some? {
        var raised := Update(job.value, Error, false, trouble);
        recorded := !raised;
      }
    }
  }
}
