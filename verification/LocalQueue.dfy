/** The directory-backed subscription queue and the processes that pull from it
    (archcloud/src/ArchLab/LocalPubSub.py).

    One subscription is one directory.  Every file-system operation of a pull is a step of
    its own, and the steps of any number of pullers interleave freely.  Temporary names live in
    the same directory and are listed like any other, so one puller may take another's file. */
module LocalQueue {
  type Name = nat
  type Pid = nat

  /** A published copy, known by the name it was published under. */
  datatype Message = Message(origin: Name, body: nat)

  /** Where a puller is inside `do_pull`; `got` are the messages it has read and removed. */
  datatype Puller =
    | Idle
    | Scanning(items: seq<Name>, got: seq<Message>, max: int)
    | Grabbed(tmp: Name, items: seq<Name>, got: seq<Message>, max: int)
    | Read(tmp: Name, msg: Message, items: seq<Name>, got: seq<Message>, max: int)
    | Returned(got: seq<Message>)
    | Raised
  {
    predicate Active() { Scanning? || Grabbed? || Read? }
  }

  /** `used`, `published`, `returned` and `lost` record history. */
  datatype Queue = Queue(dir: map<Name, Message>, used: set<Name>, pullers: map<Pid, Puller>,
                         published: set<Message>, returned: seq<Message>, lost: seq<Message>)
  {
    function Of(p: Pid): Puller { if p in pullers then pullers[p] else Idle }

    function Set(p: Pid, s: Puller): Queue { this.(pullers := pullers[p := s]) }
  }

  const EMPTY := Queue(map[], {}, map[], {}, [], [])

  /** An operation whose file is gone fails; with `fails` it fails anyway, without effect. */
  datatype Step =
    | Publish(name: Name, body: nat)
    | Start(p: Pid, items: seq<Name>, max: int, fails: bool)
    | Grab(p: Pid, tmp: Name, fails: bool)
    | Open(p: Pid, fails: bool)
    | Remove(p: Pid, fails: bool)
    | Finish(p: Pid)
    | Collect(p: Pid)

  /** File names are uuids: a new one is a name never used before. */
  ghost predicate Enabled(q: Queue, s: Step) {
    match s
    case Publish(name, _) => name !in q.used
    case Start(p, items, _, _) => q.Of(p).Idle? && forall n :: n in items <==> n in q.dir
    case Grab(p, tmp, _) => q.Of(p).Scanning? && q.Of(p).items != [] && tmp !in q.used
    case Open(p, _) => q.Of(p).Grabbed?
    case Remove(p, _) => q.Of(p).Read?
    case Finish(p) => q.Of(p).Scanning? && q.Of(p).items == []
    case Collect(p) => q.Of(p).Returned? || q.Of(p).Raised?
  }

  /** A failed open or remove raises out of `do_pull`: what was read before is gone. */
  function Raise(q: Queue, p: Pid): Queue
    requires q.Of(p).Active()
  {
    q.Set(p, Raised).(lost := q.lost + q.Of(p).got)
  }

  function Return(q: Queue, p: Pid, got: seq<Message>): Queue {
    q.Set(p, Returned(got)).(returned := q.returned + got)
  }

  ghost function Apply(q: Queue, s: Step): Queue
    requires Enabled(q, s)
  {
    match s
    case Publish(name, body) =>
      var m := Message(name, body);
      q.(dir := q.dir[name := m], used := q.used + {name}, published := q.published + {m})
    case Start(p, items, max, fails) => q.Set(p, if fails then Raised else Scanning(items, [], max))
    case Grab(p, tmp, fails) =>
      var Scanning(items, got, max) := q.Of(p);
      var i := items[0];
      if i in q.dir && !fails then
        q.Set(p, Grabbed(tmp, items[1..], got, max)).(dir := (q.dir - {i})[tmp := q.dir[i]], used := q.used + {tmp})
      else q.Set(p, Scanning(items[1..], got, max))
    case Open(p, fails) =>
      var Grabbed(tmp, items, got, max) := q.Of(p);
      if tmp in q.dir && !fails then q.Set(p, Read(tmp, q.dir[tmp], items, got, max)) else Raise(q, p)
    case Remove(p, fails) =>
      var Read(tmp, msg, items, got, max) := q.Of(p);
      if tmp in q.dir && !fails then
        var q' := q.(dir := q.dir - {tmp});
        if |got| + 1 == max then Return(q', p, got + [msg]) else q'.Set(p, Scanning(items, got + [msg], max))
      else Raise(q, p)
    case Finish(p) => Return(q, p, q.Of(p).got)
    case Collect(p) => q.Set(p, Idle)
  }

  ghost predicate Possible(q: Queue, steps: seq<Step>)
    decreases |steps|
  {
    steps == [] || (Enabled(q, steps[0]) && Possible(Apply(q, steps[0]), steps[1..]))
  }

  ghost function Run(q: Queue, steps: seq<Step>): Queue
    requires Possible(q, steps)
    decreases |steps|
  {
    if steps == [] then q else Run(Apply(q, steps[0]), steps[1..])
  }

  // ---------- where a message is ----------

  datatype Place = InDir(name: Name) | Held(p: Pid, i: nat) | Delivered(i: nat) | Lost(i: nat)

  ghost predicate At(q: Queue, m: Message, w: Place) {
    match w
    case InDir(n) => n in q.dir && q.dir[n] == m
    case Held(p, i) => q.Of(p).Active() && i < |q.Of(p).got| && q.Of(p).got[i] == m
    case Delivered(i) => i < |q.returned| && q.returned[i] == m
    case Lost(i) => i < |q.lost| && q.lost[i] == m
  }

  ghost predicate OnePlace(q: Queue) {
    && (forall m, v, w :: At(q, m, v) && At(q, m, w) ==> v == w)
    && (forall m :: m in q.published <==> exists w :: At(q, m, w))
  }

  /** What a puller that is about to remove a file has read is what the file still holds, if
      nobody has taken the file. */
  ghost predicate NamesKept(q: Queue) {
    && q.dir.Keys <= q.used
    && (forall m :: m in q.published ==> m.origin in q.used)
    && (forall p :: q.Of(p).Grabbed? || q.Of(p).Read? ==> q.Of(p).tmp in q.used)
    && (forall p :: q.Of(p).Read? && q.Of(p).tmp in q.dir ==> q.dir[q.Of(p).tmp] == q.Of(p).msg)
  }

  ghost predicate Inv(q: Queue) { OnePlace(q) && NamesKept(q) }

  /** Where the step moves the message that is at `w`. */
  ghost function Moved(q: Queue, s: Step, w: Place): Place
    requires Enabled(q, s)
  {
    match s
    case Grab(p, tmp, fails) => if !fails && w == InDir(q.Of(p).items[0]) then InDir(tmp) else w
    case Open(p, fails) => if w.Held? && w.p == p && (fails || q.Of(p).tmp !in q.dir) then Lost(|q.lost| + w.i) else w
    case Remove(p, fails) =>
      var Read(tmp, _, _, got, max) := q.Of(p);
      if fails || tmp !in q.dir then (if w.Held? && w.p == p then Lost(|q.lost| + w.i) else w)
      else
        var w' := if w == InDir(tmp) then Held(p, |got|) else w;
        if |got| + 1 == max && w'.Held? && w'.p == p then Delivered(|q.returned| + w'.i) else w'
    case Finish(p) => if w.Held? && w.p == p then Delivered(|q.returned| + w.i) else w
    case _ => w
  }

  /** A step carries every message to its new place ... */
  lemma StepMoves(q: Queue, s: Step, m: Message, w: Place)
    requires Inv(q) && Enabled(q, s) && At(q, m, w)
    ensures At(Apply(q, s), m, Moved(q, s, w))
  {
    hide OnePlace;
    if s.Remove? { RemoveMoves(q, s.p, s.fails, m, w); }
  }

  lemma RemoveMoves(q: Queue, p: Pid, fails: bool, m: Message, w: Place)
    requires NamesKept(q) && Enabled(q, Remove(p, fails)) && At(q, m, w)
    ensures At(Apply(q, Remove(p, fails)), m, Moved(q, Remove(p, fails), w))
  {
  }

  /** ... and puts nothing anywhere else, except a published message in the directory. */
  lemma StepOrigin(q: Queue, s: Step, m: Message, w': Place) returns (w: Place)
    requires Inv(q) && Enabled(q, s) && At(Apply(q, s), m, w')
    requires !(s.Publish? && m == Message(s.name, s.body))
    ensures At(q, m, w) && Moved(q, s, w) == w'
  {
    hide OnePlace;
    match s
    case Remove(p, fails) => w := RemoveOrigin(q, p, fails, m, w');
    case Grab(p, tmp, fails) => w := if !fails && w' == InDir(tmp) then InDir(q.Of(p).items[0]) else w';
    case Open(p, _) =>
      w := if w'.Lost? && w'.i >= |q.lost| then Held(p, w'.i - |q.lost|) else w';
    case Finish(p) =>
      w := if w'.Delivered? && w'.i >= |q.returned| then Held(p, w'.i - |q.returned|) else w';
    case _ => w := w';
  }

  lemma RemoveOrigin(q: Queue, p: Pid, fails: bool, m: Message, w': Place) returns (w: Place)
    requires Inv(q) && Enabled(q, Remove(p, fails)) && At(Apply(q, Remove(p, fails)), m, w')
    ensures At(q, m, w) && Moved(q, Remove(p, fails), w) == w'
  {
    hide OnePlace;
    var got, n := q.Of(p).got, |q.returned|;
    if w'.Lost? && w'.i >= |q.lost| { w := Held(p, w'.i - |q.lost|); }
    else if w'.Delivered? && w'.i == n + |got| { w := InDir(q.Of(p).tmp); }
    else if w'.Delivered? && w'.i >= n { w := Held(p, w'.i - n); }
    else if w' == Held(p, |got|) { w := InDir(q.Of(p).tmp); }
    else { w := w'; }
  }

  lemma StepKeepsNames(q: Queue, s: Step)
    requires Inv(q) && Enabled(q, s)
    ensures NamesKept(Apply(q, s))
  {
    var q' := Apply(q, s);
    forall p
      ensures q'.Of(p).Grabbed? || q'.Of(p).Read? ==> q'.Of(p).tmp in q'.used
      ensures q'.Of(p).Read? && q'.Of(p).tmp in q'.dir ==> q'.dir[q'.Of(p).tmp] == q'.Of(p).msg
    {
      var _ := q.Of(p);
    }
  }

  lemma StepKeepsOnePlace(q: Queue, s: Step, m: Message, v': Place, w': Place)
    requires Inv(q) && Enabled(q, s) && At(Apply(q, s), m, v') && At(Apply(q, s), m, w')
    ensures v' == w'
  {
    if s.Publish? && m == Message(s.name, s.body) {
      assert m !in q.published;
      assert !At(q, m, v') && !At(q, m, w');
    } else {
      var v := StepOrigin(q, s, m, v');
      var w := StepOrigin(q, s, m, w');
    }
  }

  lemma StepKeepsPublished(q: Queue, s: Step, m: Message)
    requires Inv(q) && Enabled(q, s)
    ensures m in Apply(q, s).published <==> exists w' :: At(Apply(q, s), m, w')
  {
    var q' := Apply(q, s);
    if m in q.published {
      var w :| At(q, m, w);
      StepMoves(q, s, m, w);
    } else if s.Publish? && m == Message(s.name, s.body) {
      assert At(q', m, InDir(s.name));
    } else if w' :| At(q', m, w') {
      var w := StepOrigin(q, s, m, w');
    }
  }

  lemma StepKeepsInv(q: Queue, s: Step)
    requires Inv(q) && Enabled(q, s)
    ensures Inv(Apply(q, s))
  {
    hide At;
    StepKeepsNames(q, s);
    forall m, v', w' | At(Apply(q, s), m, v') && At(Apply(q, s), m, w') ensures v' == w' {
      StepKeepsOnePlace(q, s, m, v', w');
    }
    forall m ensures m in Apply(q, s).published <==> exists w' :: At(Apply(q, s), m, w') {
      StepKeepsPublished(q, s, m);
    }
  }

  lemma InitInv()
    ensures Inv(EMPTY)
  {
  }

  /** In every run, every published message is in exactly one place: in the directory under one
      name, read and held by one puller, delivered, or lost with a failed pull. */
  lemma {:induction false} RunKeepsInv(q: Queue, steps: seq<Step>)
    requires Inv(q) && Possible(q, steps)
    ensures Inv(Run(q, steps))
    decreases |steps|
  {
    if steps != [] {
      StepKeepsInv(q, steps[0]);
      RunKeepsInv(Apply(q, steps[0]), steps[1..]);
    }
  }

  /** No message is delivered twice, and none that is delivered is still in the directory. */
  lemma DeliveredOnce(steps: seq<Step>, i: nat, j: nat)
    requires Possible(EMPTY, steps)
    requires i < |Run(EMPTY, steps).returned| && j < |Run(EMPTY, steps).returned|
    ensures Run(EMPTY, steps).returned[i] == Run(EMPTY, steps).returned[j] ==> i == j
    ensures Run(EMPTY, steps).returned[i] in Run(EMPTY, steps).published
    ensures Run(EMPTY, steps).returned[i] !in Run(EMPTY, steps).dir.Values
    ensures Run(EMPTY, steps).returned[i] !in Run(EMPTY, steps).lost
  {
    var q := Run(EMPTY, steps);
    InitInv();
    RunKeepsInv(EMPTY, steps);
    var m := q.returned[i];
    assert At(q, m, Delivered(i));
    if q.returned[j] == m { assert At(q, m, Delivered(j)); }
    if m in q.dir.Values { var n :| n in q.dir && q.dir[n] == m; assert At(q, m, InDir(n)); }
    if m in q.lost { var k: nat :| k < |q.lost| && q.lost[k] == m; assert At(q, m, Lost(k)); }
  }

  // ---------- pulls of one message ----------

  ghost predicate SinglePulls(q: Queue) {
    && q.lost == []
    && (forall p :: q.Of(p).Active() ==> q.Of(p).max == 1 && q.Of(p).got == [])
    && (forall p :: q.Of(p).Returned? ==> |q.Of(p).got| <= 1)
  }

  lemma StepKeepsSingle(q: Queue, s: Step)
    requires SinglePulls(q) && Enabled(q, s) && (s.Start? ==> s.max == 1)
    ensures SinglePulls(Apply(q, s))
  {
    var q' := Apply(q, s);
    forall p
      ensures q'.Of(p).Active() ==> q'.Of(p).max == 1 && q'.Of(p).got == []
      ensures q'.Of(p).Returned? ==> |q'.Of(p).got| <= 1
    {
      var _ := q.Of(p);
    }
  }

  lemma {:induction false} RunKeepsSingle(q: Queue, steps: seq<Step>)
    requires SinglePulls(q) && Possible(q, steps)
    requires forall k :: 0 <= k < |steps| && steps[k].Start? ==> steps[k].max == 1
    ensures SinglePulls(Run(q, steps))
    decreases |steps|
  {
    if steps != [] {
      assert steps[0].Start? ==> steps[0].max == 1;
      StepKeepsSingle(q, steps[0]);
      RunKeepsSingle(Apply(q, steps[0]), steps[1..]);
    }
  }

  /** When every pull asks for one message, a published message is either in the directory or
      delivered: pulls that fail lose nothing. */
  lemma SinglePullsLoseNothing(steps: seq<Step>, m: Message)
    requires Possible(EMPTY, steps)
    requires forall k :: 0 <= k < |steps| && steps[k].Start? ==> steps[k].max == 1
    ensures m in Run(EMPTY, steps).published
       <==> m in Run(EMPTY, steps).dir.Values || m in Run(EMPTY, steps).returned
  {
    var q := Run(EMPTY, steps);
    InitInv();
    RunKeepsInv(EMPTY, steps);
    RunKeepsSingle(EMPTY, steps);
    if m in q.published {
      var w :| At(q, m, w);
    }
    if m in q.dir.Values { var n :| n in q.dir && q.dir[n] == m; assert At(q, m, InDir(n)); }
    if m in q.returned { var k: nat :| k < |q.returned| && q.returned[k] == m; assert At(q, m, Delivered(k)); }
  }

  lemma {:induction false} Extend(q: Queue, steps: seq<Step>, s: Step)
    requires Possible(q, steps) && Enabled(Run(q, steps), s)
    ensures Possible(q, steps + [s]) && Run(q, steps + [s]) == Apply(Run(q, steps), s)
    decreases |steps|
  {
    if steps == [] {
      assert [s][1..] == [];
    } else {
      Extend(Apply(q, steps[0]), steps[1..], s);
      assert (steps + [s])[1..] == steps[1..] + [s];
    }
  }

  /** Every pull of the run asks for `max` messages; zero or less is no limit. */
  ghost predicate AllAsk(steps: seq<Step>, max: int) {
    forall k :: 0 <= k < |steps| && steps[k].Start? ==> steps[k].max == max
  }

  /** No message is ever lost exactly when pulls ask for one message at a time. */
  lemma LosesNothingExact(max: int)
    ensures (forall steps :: Possible(EMPTY, steps) && AllAsk(steps, max) ==> Run(EMPTY, steps).lost == [])
       <==> max == 1
  {
    hide Possible, Run;
    if max == 1 {
      forall steps | Possible(EMPTY, steps) && AllAsk(steps, max) ensures Run(EMPTY, steps).lost == [] {
        RunKeepsSingle(EMPTY, steps);
      }
    } else {
      var steps := BatchPullCanLose(max);
      assert Possible(EMPTY, steps) && AllAsk(steps, max) && Run(EMPTY, steps).lost != [];
    }
  }

  /** A pull that does not stop after one message can lose one: the puller has removed its first
      message when another takes the file it grabbed next, and its open then fails. */
  lemma BatchPullCanLose(max: int) returns (steps: seq<Step>)
    requires max != 1
    ensures Possible(EMPTY, steps) && AllAsk(steps, max) && Run(EMPTY, steps).lost != []
  {
    hide Possible, Run;
    steps := FirstOfTwoRemoved(max);
    var t := steps; steps := t + [Grab(0, 11, false)]; Extend(EMPTY, t, Grab(0, 11, false));
    assert Run(EMPTY, steps).dir == map[11 := Message(1, 8)];
    t := steps; steps := t + [Start(1, [11], max, false)]; Extend(EMPTY, t, Start(1, [11], max, false));
    t := steps; steps := t + [Grab(1, 12, false)]; Extend(EMPTY, t, Grab(1, 12, false));
    t := steps; steps := t + [Open(0, false)]; Extend(EMPTY, t, Open(0, false));
  }

  lemma FirstOfTwoRemoved(max: int) returns (steps: seq<Step>)
    requires max != 1
    ensures Possible(EMPTY, steps) && AllAsk(steps, max)
    ensures var q := Run(EMPTY, steps);
      && q.Of(0) == Scanning([1], [Message(0, 7)], max) && q.Of(1) == Idle
      && q.dir == map[1 := Message(1, 8)] && q.used == {0, 1, 10}
  {
    hide Possible, Run;
    steps := TwoListed(max);
    var t := steps; steps := t + [Grab(0, 10, false)]; Extend(EMPTY, t, Grab(0, 10, false));
    assert Run(EMPTY, steps).dir == map[10 := Message(0, 7), 1 := Message(1, 8)];
    t := steps; steps := t + [Open(0, false)]; Extend(EMPTY, t, Open(0, false));
    t := steps; steps := t + [Remove(0, false)]; Extend(EMPTY, t, Remove(0, false));
  }

  lemma TwoListed(max: int) returns (steps: seq<Step>)
    ensures Possible(EMPTY, steps) && AllAsk(steps, max)
    ensures var q := Run(EMPTY, steps);
      && q.Of(0) == Scanning([0, 1], [], max) && q.Of(1) == Idle
      && q.dir == map[0 := Message(0, 7), 1 := Message(1, 8)] && q.used == {0, 1}
  {
    hide Possible, Run;
    RunNothing(EMPTY);
    var t: seq<Step> := [];
    steps := t + [Publish(0, 7)]; Extend(EMPTY, t, Publish(0, 7));
    t := steps; steps := t + [Publish(1, 8)]; Extend(EMPTY, t, Publish(1, 8));
    t := steps; steps := t + [Start(0, [0, 1], max, false)]; Extend(EMPTY, t, Start(0, [0, 1], max, false));
  }

  lemma RunNothing(q: Queue)
    ensures Possible(q, []) && Run(q, []) == q
  {
  }
}
