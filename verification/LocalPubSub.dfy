/** The pull of a local subscriber as it is written, a loop over a listing, run while any
    number of other processes publish and pull (archcloud/src/ArchLab/LocalPubSub.py). */
module LocalPubSub {
  import opened LocalQueue

  /** Steps that are not taken by puller `p`. */
  predicate ByOther(p: Pid, s: Step) {
    s.Publish? || s.p != p
  }

  lemma {:induction false} OthersKeepMine(p: Pid, q: Queue, steps: seq<Step>)
    requires Possible(q, steps) && forall k :: 0 <= k < |steps| ==> ByOther(p, steps[k])
    ensures Run(q, steps).Of(p) == q.Of(p)
    decreases |steps|
  {
    if steps != [] {
      assert ByOther(p, steps[0]);
      OtherKeepsMine(p, q, steps[0]);
      OthersKeepMine(p, Apply(q, steps[0]), steps[1..]);
    }
  }

  lemma OtherKeepsMine(p: Pid, q: Queue, s: Step)
    requires Enabled(q, s) && ByOther(p, s)
    ensures Apply(q, s).Of(p) == q.Of(p)
  {
  }

  /** No step but those of `p` after the first `n`. */
  ghost predicate Alone(p: Pid, h: seq<Step>, n: nat) {
    forall k :: n <= k < |h| ==> !ByOther(p, h[k])
  }

  lemma {:induction false} PrefixPossible(q: Queue, steps: seq<Step>, k: nat)
    requires Possible(q, steps) && k <= |steps|
    ensures Possible(q, steps[..k])
    decreases k
  {
    if k > 0 {
      hide Apply, Enabled;
      PrefixPossible(Apply(q, steps[0]), steps[1..], k - 1);
      assert steps[..k][1..] == steps[1..][..k - 1];
    }
  }

  /** The files after the first `k` steps. */
  ghost function FilesAfter(h: seq<Step>, k: nat): map<Name, Message>
    requires Possible(EMPTY, h) && k <= |h|
  {
    PrefixPossible(EMPTY, h, k);
    Run(EMPTY, h[..k]).dir
  }

  /** Some other process took file `n`, by a step that is not among the first `from`. */
  ghost predicate Robbed(p: Pid, h: seq<Step>, from: nat, n: Name) {
    && Possible(EMPTY, h)
    && exists k :: from <= k < |h| && ByOther(p, h[k]) && n in FilesAfter(h, k) && n !in FilesAfter(h, k + 1)
  }

  /** A file that was there and is gone was taken by one of the steps in between. */
  lemma {:induction false} SomebodyTookIt(p: Pid, h: seq<Step>, from: nat, now: nat, n: Name)
    requires Possible(EMPTY, h) && from <= now <= |h|
    requires n in FilesAfter(h, from) && n !in FilesAfter(h, now)
    requires forall k :: from <= k < now ==> ByOther(p, h[k])
    ensures Robbed(p, h, from, n)
    decreases now - from
  {
    hide Possible, Run, FilesAfter;
    if n in FilesAfter(h, from + 1) {
      SomebodyTookIt(p, h, from + 1, now, n);
    } else {
      assert ByOther(p, h[from]);
    }
  }

  lemma Stolen(p: Pid, h0: seq<Step>, h1: seq<Step>, h: seq<Step>, from: nat, n: Name)
    requires Possible(EMPTY, h0) && Possible(EMPTY, h1) && Possible(EMPTY, h) && h0 <= h1 <= h && from <= |h0|
    requires n in Run(EMPTY, h0).dir && n !in Run(EMPTY, h1).dir
    requires forall k :: |h0| <= k < |h1| ==> ByOther(p, h1[k])
    ensures Robbed(p, h, from, n)
  {
    hide Possible, Run, ByOther;
    assert h[..|h0|] == h0 && h[..|h1|] == h1;
    SomebodyTookIt(p, h, |h0|, |h1|, n);
  }

  lemma RobbedNotAlone(p: Pid, h: seq<Step>, from: nat, n: Name)
    requires Robbed(p, h, from, n)
    ensures !Alone(p, h, from)
  {
    hide Possible, FilesAfter, ByOther;
  }

  lemma RobbedSince(p: Pid, h: seq<Step>, later: nat, from: nat, n: Name)
    requires from <= later <= |h|
    ensures Robbed(p, h, later, n) ==> Robbed(p, h, from, n) && !Alone(p, h, from)
    ensures Alone(p, h, from) ==> Alone(p, h, later)
  {
    hide Possible, FilesAfter, ByOther;
    if Robbed(p, h, later, n) { RobbedNotAlone(p, h, from, n); }
  }

  lemma AloneBefore(p: Pid, h: seq<Step>, h': seq<Step>, from: nat)
    requires h <= h' && from <= |h|
    ensures Alone(p, h', from) ==> Alone(p, h, from) && Alone(p, h', |h|)
  {
    assert forall k :: 0 <= k < |h| ==> h[k] == h'[k];
  }

  /** If nobody but `p` took a step in the end, nobody did on the way. */
  lemma NobodyCame(p: Pid, h0: seq<Step>, h1: seq<Step>, h: seq<Step>, from: nat)
    requires h0 <= h1 <= h && from <= |h0| && forall k :: |h0| <= k < |h1| ==> ByOther(p, h1[k])
    ensures Alone(p, h, from) ==> h1 == h0
  {
    if h1 != h0 { assert h1[|h0|] == h[|h0|]; }
  }

  lemma NamesUsed(h: seq<Step>)
    requires Possible(EMPTY, h)
    ensures Run(EMPTY, h).dir.Keys <= Run(EMPTY, h).used
  {
    InitInv();
    RunKeepsInv(EMPTY, h);
  }

  datatype Pulled = Messages(got: seq<Message>) | OSError

  datatype Taken = Got(msg: Message) | Missed | Failed

  /** The directory of one subscription. */
  class Subscription {
    var dir: map<Name, Message>
    /** All names used so far are below this one. */
    var nextUuid: Name
    /** The steps taken so far by all processes, and the state of the queue machine they lead to. */
    ghost var history: seq<Step>
    ghost var q: Queue

    ghost predicate Valid()
      reads this
    {
      && Possible(EMPTY, history) && q == Run(EMPTY, history)
      && dir == q.dir && forall n :: n in q.used ==> n < nextUuid
    }

    constructor ()
      ensures Valid() && history == []
    {
      dir, nextUuid, history, q := map[], 0, [], EMPTY;
    }

    /** Takes a step of the machine. */
    ghost method Advance(s: Step)
      requires Possible(EMPTY, history) && q == Run(EMPTY, history) && Enabled(q, s)
      modifies this`history, this`q
      ensures Possible(EMPTY, history) && q == Run(EMPTY, history)
      ensures history == old(history) + [s] && q == Apply(old(q), s)
    {
      Extend(EMPTY, history, s);
      q := Apply(q, s);
      history := history + [s];
    }

    /** Whatever other processes do between two file-system operations of `p`. */
    method Meanwhile(p: Pid)
      requires Valid()
      modifies this
      ensures Valid() && old(history) <= history && q.Of(p) == old(q.Of(p))
      ensures forall k :: |old(history)| <= k < |history| ==> ByOther(p, history[k])
      ensures history == old(history) ==> dir == old(dir) && q == old(q)
    {
    }

    method Uuid() returns (n: Name)
      requires Valid()
      modifies this`nextUuid
      ensures Valid() && n !in q.used && n < nextUuid
    {
      n, nextUuid := nextUuid, nextUuid + 1;
    }

    /** Writing the file of a new message. */
    method Publish(body: nat) returns (name: Name)
      requires Valid()
      modifies this
      ensures Valid() && history == old(history) + [LocalQueue.Publish(name, body)]
      ensures name !in old(dir) && dir == old(dir)[name := Message(name, body)]
    {
      NamesUsed(history);
      name := Uuid();
      Advance(LocalQueue.Publish(name, body));
      dir := dir[name := Message(name, body)];
    }

    /** Whether an operation fails for a reason of its own is not up to the puller; without trouble
        none does. */
    method Strikes(trouble: bool) returns (fails: bool)
      ensures fails ==> trouble
    {
      fails := trouble;
    }

    method List(p: Pid, max: int, trouble: bool) returns (items: seq<Name>, raised: bool)
      requires Valid() && q.Of(p).Idle?
      modifies this`history, this`q
      ensures Valid() && history == old(history) + [Start(p, items, max, raised)]
      ensures q == old(q).Set(p, if raised then Raised else Scanning(items, [], max))
      ensures q.Of(p) == if raised then Raised else Scanning(items, [], max)
      ensures raised ==> trouble
      ensures Lists(items, dir)
    {
      raised := Strikes(trouble);
      items := Listing(dir);
      Advance(Start(p, items, max, raised));
    }

    /** os.rename from the next listed name to a temporary one. */
    method Rename(p: Pid, i: Name, t: Name, trouble: bool) returns (renamed: bool)
      requires Valid() && Enabled(q, Grab(p, t, false)) && q.Of(p).items[0] == i && t < nextUuid
      modifies this`dir, this`history, this`q
      ensures Valid() && history == old(history) + [Grab(p, t, !renamed)] && q == Apply(old(q), Grab(p, t, !renamed))
      ensures renamed ==> i in old(dir) && dir == (old(dir) - {i})[t := old(dir)[i]]
      ensures !renamed ==> trouble || i !in old(dir)
    {
      var fails := Strikes(trouble);
      renamed := i in dir && !fails;
      Advance(Grab(p, t, !renamed));
      if renamed { dir := (dir - {i})[t := dir[i]]; }
    }

    /** Opening and reading a file. */
    method ReadFile(p: Pid, t: Name, trouble: bool) returns (m: Message, raised: bool)
      requires Valid() && q.Of(p).Grabbed? && q.Of(p).tmp == t
      modifies this`history, this`q
      ensures Valid() && history == old(history) + [Open(p, raised)] && q == Apply(old(q), Open(p, raised))
      ensures !raised ==> t in dir && m == dir[t]
      ensures raised ==> trouble || t !in dir
    {
      var fails := Strikes(trouble);
      raised := fails || t !in dir;
      Advance(Open(p, raised));
      m := if raised then Message(0, 0) else dir[t];
    }

    method RemoveFile(p: Pid, t: Name, trouble: bool) returns (raised: bool)
      requires Valid() && q.Of(p).Read? && q.Of(p).tmp == t
      modifies this`dir, this`history, this`q
      ensures Valid() && history == old(history) + [Remove(p, raised)] && q == Apply(old(q), Remove(p, raised))
      ensures !raised ==> t in old(dir) && dir == old(dir) - {t}
      ensures raised ==> trouble || t !in old(dir)
    {
      var fails := Strikes(trouble);
      raised := fails || t !in dir;
      Advance(Remove(p, raised));
      if !raised { dir := dir - {t}; }
    }

    /** One round of the loop of do_pull: rename, read, remove.  Without trouble, a file that was
        there is missed or lost only if another process took it, under its own name or under `t`. */
    method Take(p: Pid, i: Name, trouble: bool, ghost items: seq<Name>, ghost got: seq<Message>, ghost max: int)
      returns (r: Taken, ghost t: Name)
      requires Valid() && items != [] && items[0] == i && q.Of(p) == Scanning(items, got, max)
      modifies this
      ensures Valid() && old(history) <= history
      ensures r.Missed? ==> q.Of(p) == Scanning(items[1..], got, max)
      ensures r.Got? && |got| + 1 == max ==> q.Of(p) == Returned(got + [r.msg])
      ensures r.Got? && |got| + 1 != max ==> q.Of(p) == Scanning(items[1..], got + [r.msg], max)
      ensures r.Failed? ==> q.Of(p) == Raised
      ensures !r.Got? && !trouble && i in old(dir) ==>
        Robbed(p, history, |old(history)|, i) || Robbed(p, history, |old(history)|, t)
      ensures !trouble && i in old(dir) && Alone(p, history, |old(history)|) ==>
        r == Got(old(dir)[i]) && dir == old(dir) - {i}
    {
      hide Possible, Run, Alone, Robbed, ByOther;
      ghost var from, h0 := |old(history)|, history;
      Meanwhile(p);
      ghost var h1 := history;
      var tmp := Uuid();
      t := tmp;
      NamesUsed(history);
      var here := Rename(p, i, tmp, trouble);
      if !here {
        if !trouble && i in old(dir) { Stolen(p, h0, h1, history, from, i); RobbedNotAlone(p, history, from, i); }
        return Missed, t;
      }
      ghost var h2 := history;
      r := Keep(p, tmp, trouble, items[1..], got, max);
      RobbedSince(p, history, |h2|, from, t);
      NobodyCame(p, h0, h1, history, from);
    }

    /** The rest of the round, when the file has its temporary name. */
    method Keep(p: Pid, t: Name, trouble: bool, ghost items: seq<Name>, ghost got: seq<Message>, ghost max: int)
      returns (r: Taken)
      requires Valid() && q.Of(p) == Grabbed(t, items, got, max) && t in dir
      modifies this
      ensures Valid() && old(history) <= history && !r.Missed?
      ensures r.Got? && |got| + 1 == max ==> q.Of(p) == Returned(got + [r.msg])
      ensures r.Got? && |got| + 1 != max ==> q.Of(p) == Scanning(items, got + [r.msg], max)
      ensures r.Failed? ==> q.Of(p) == Raised
      ensures r.Failed? && !trouble ==> Robbed(p, history, |old(history)|, t)
      ensures !trouble && Alone(p, history, |old(history)|) ==> r == Got(old(dir)[t]) && dir == old(dir) - {t}
    {
      hide Possible, Run, Alone, Robbed, ByOther;
      ghost var from, h0 := |old(history)|, history;
      Meanwhile(p);
      ghost var h1 := history;
      var m, missing := ReadFile(p, t, trouble);
      if missing {
        if !trouble { Stolen(p, h0, h1, history, from, t); RobbedNotAlone(p, history, from, t); }
        return Failed;
      }
      ghost var h2 := history;
      Meanwhile(p);
      ghost var h3 := history;
      var gone := RemoveFile(p, t, trouble);
      if gone {
        if !trouble { Stolen(p, h2, h3, history, from, t); RobbedNotAlone(p, history, from, t); }
        return Failed;
      }
      NobodyCame(p, h0, h1, history, from);
      NobodyCame(p, h2, h3, history, from);
      return Got(m);
    }

    /** do_pull: whatever the others do meanwhile, it is one puller of the machine, and what
        it returns is what the machine delivers to it.  Without trouble and without others it
        returns as many files as it may, whole and distinct, and removes exactly these, `names`. */
    method DoPull(p: Pid, max: int, trouble: bool) returns (r: Pulled, ghost names: seq<Name>)
      requires Valid() && q.Of(p).Idle?
      modifies this
      ensures Valid() && old(history) <= history
      ensures r.Messages? ==> q.Of(p) == Returned(r.got) && (max > 0 ==> |r.got| <= max)
      ensures r.OSError? ==> q.Of(p) == Raised
      ensures !trouble && Alone(p, history, |old(history)|) ==>
        r.Messages? && |r.got| == (if 0 < max < |old(dir)| then max else |old(dir)|)
      ensures !trouble && Alone(p, history, |old(history)|) ==> r.Messages? && Delivers(old(dir), dir, names, r.got)
    {
      hide *;
      ghost var from, h0, d := |old(history)|, history, dir;
      Meanwhile(p);
      ghost var h1 := history;
      names := [];
      var items, failed := List(p, max, trouble);
      if failed { return OSError, names; }
      NobodyCame(p, h0, h1, history, from);
      TookNone(d, items);
      var got: seq<Message>, k := [], 0;
      while k < |items|
        invariant Valid() && old(history) <= history && 0 <= k <= |items|
        invariant q.Of(p) == Scanning(items[k..], got, max) && (max > 0 ==> |got| < max)
        invariant !trouble && Alone(p, history, from) ==> SoFar(d, dir, items, k, names, got)
      {
        ghost var before := history;
        TookNext(d, dir, items, k, names, got);
        var taken, _ := Take(p, items[k], trouble, items[k..], got, max);
        AloneBefore(p, before, history, from);
        k := k + 1;
        match taken
        case Failed => return OSError, names;
        case Missed =>
        case Got(m) =>
          got, names := got + [m], names + [items[k - 1]];
          if |got| == max { TookEnough(d, dir, items, k, names, got); return Messages(got), names; }
      }
      TookEnough(d, dir, items, k, names, got);
      GiveBack(p);
      AloneBefore(p, history[..|history| - 1], history, from);
      return Messages(got), names;
    }

    /** The listing is exhausted. */
    ghost method GiveBack(p: Pid)
      requires Valid() && q.Of(p).Scanning? && q.Of(p).items == []
      modifies this`history, this`q
      ensures Valid() && history == old(history) + [Finish(p)] && q.Of(p) == Returned(old(q.Of(p).got))
    {
      Advance(Finish(p));
    }
  }

  /** Every name of the directory, once. */
  ghost predicate Lists(items: seq<Name>, dir: map<Name, Message>) {
    && |items| == |dir| && (forall n :: n in items <==> n in dir)
    && forall i, j :: 0 <= i < j < |items| ==> items[i] != items[j]
  }

  /** The messages are the contents of the files, which are different ones, and no others are gone. */
  ghost predicate Delivers(before: map<Name, Message>, after: map<Name, Message>, names: seq<Name>, got: seq<Message>) {
    && |got| == |names| && (forall i, j :: 0 <= i < j < |names| ==> names[i] != names[j])
    && (forall k :: 0 <= k < |names| ==> names[k] in before && got[k] == before[names[k]])
    && after == before - set n | n in names
  }

  /** The first `k` files of the listing have been taken. */
  ghost predicate SoFar(d: map<Name, Message>, d': map<Name, Message>, items: seq<Name>, k: nat, names: seq<Name>,
                        got: seq<Message>)
  {
    k <= |items| && Lists(items, d) && names == items[..k] && Delivers(d, d', names, got)
  }

  lemma TookNone(d: map<Name, Message>, items: seq<Name>)
    ensures Lists(items, d) ==> SoFar(d, d, items, 0, [], [])
  {
  }

  lemma TookNext(d: map<Name, Message>, d': map<Name, Message>, items: seq<Name>, k: nat, names: seq<Name>,
                 got: seq<Message>)
    requires k < |items|
    ensures SoFar(d, d', items, k, names, got) ==> items[k] in d'
    ensures SoFar(d, d', items, k, names, got) ==>
      SoFar(d, d' - {items[k]}, items, k + 1, names + [items[k]], got + [d'[items[k]]])
  {
    if SoFar(d, d', items, k, names, got) {
      var more := names + [items[k]];
      assert more == items[..k + 1] && (set n | n in more) == (set n | n in names) + {items[k]};
      assert items[k] in items;
      assert items[k] in d;
    }
  }

  lemma TookEnough(d: map<Name, Message>, d': map<Name, Message>, items: seq<Name>, k: nat, names: seq<Name>,
                   got: seq<Message>)
    ensures SoFar(d, d', items, k, names, got) ==> |items| == |d| && |got| == k <= |d| && Delivers(d, d', names, got)
  {
  }

  /** os.listdir: every name once, in some order. */
  method Listing(dir: map<Name, Message>) returns (items: seq<Name>)
    ensures Lists(items, dir)
  {
    var rest := dir.Keys;
    items := [];
    while rest != {}
      invariant |items| + |rest| == |dir.Keys|
      invariant forall n :: n in items <==> n in dir && n !in rest
      invariant forall i, j :: 0 <= i < j < |items| ==> items[i] != items[j]
      invariant rest <= dir.Keys
      decreases |rest|
    {
      var n :| n in rest;
      items, rest := items + [n], rest - {n};
    }
  }
}
