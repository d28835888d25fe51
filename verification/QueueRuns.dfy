/** Whole runs of the decoding queue: any interleaving of the critical sections by any
    number of processes, with a log of what went in and what came out. */
module QueueRuns {
  import opened Options
  import opened Masks
  import opened DecodingQueue
  import Decimals

  datatype Event =
    | AddJob(job: Job)
    | TakeJob
    | Return(slot: nat)
    | Lookup(key: Payload)

  /** Jobs accepted and handed out, in order, and the number of slots given back. */
  datatype Log = Log(accepted: seq<Payload>, delivered: seq<Payload>, released: nat)

  /** A critical section runs when the lock is free; only a working slot is given back. */
  predicate Enabled(q: QueueState, e: Event)
    requires q.Shaped()
  {
    !q.held && (e.Return? ==> e.slot < q.Width() && q.working[e.slot])
  }

  function Step(same: (string, string) -> bool, q: QueueState, e: Event): QueueState
    requires q.Shaped() && (NonZero(q.waiting) ==> 0 <= q.head < q.Width()) && Enabled(q, e)
  {
    match e
    case AddJob(job) => AddState(q, job).0
    case TakeJob => GetState(q).0
    case Return(i) => ReleaseState(q, i)
    case Lookup(key) => ScanState(q, same, key)
  }

  function Record(q: QueueState, e: Event, log: Log): Log
    requires q.Shaped() && (NonZero(q.waiting) ==> 0 <= q.head < q.Width()) && Enabled(q, e)
  {
    match e
    case AddJob(job) =>
      if AddState(q, job).1 == 0 then log.(accepted := log.accepted + [job.payload]) else log
    case TakeJob =>
      (match GetState(q).1
       case None => log
       case Some(i) =>
         if i < q.Width() then log.(delivered := log.delivered + [q.decoding[i].payload]) else log)
    case Return(i) => log.(released := log.released + 1)
    case Lookup(_) => log
  }

  /** The state and log after the events, or None once some event was not enabled. */
  ghost function Run(same: (string, string) -> bool, slots: seq<Job>, events: seq<Event>)
      : (r: Option<(QueueState, Log)>)
    ensures r.Some? ==> Valid(r.value.0) && r.value.0.Width() == |slots|
  {
    InitialValid(slots);
    if events == [] then Some((Initial(slots), Log([], [], 0)))
    else
      var n := |events| - 1;
      match Run(same, slots, events[..n])
      case None => None
      case Some((q, log)) =>
        if !Enabled(q, events[n]) then None
        else
          StepKeeps(same, q, events[n]);
          Some((Step(same, q, events[n]), Record(q, events[n], log)))
  }

  /** The conservation law of a run. */
  ghost predicate Balanced(f: Fifo, log: Log) {
    && log.accepted == log.delivered + f.line
    && |log.delivered| == |f.busy.Keys| + log.released
  }

  lemma {:induction false} StepKeeps(same: (string, string) -> bool, q: QueueState, e: Event)
    requires Valid(q) && Enabled(q, e)
    ensures NonZero(q.waiting) ==> 0 <= q.head < q.Width()
    ensures var q' := Step(same, q, e);
      && Valid(q') && q'.Width() == q.Width()
      && (q'.held <==> e.AddJob? && |Members(q.waiting)| + |Members(q.working)| == q.Width())
  {
    GetRefines(q);
    match e
    case AddJob(job) => AddRefines(q, job);
    case TakeJob =>
    case Return(i) => ReleaseRefines(q, i);
    case Lookup(key) => ScanRefines(q, same, key);
  }

  lemma {:induction false} TakeBalanced(f: Fifo, slot: nat, log: Log)
    requires Balanced(f, log) && f.line != [] && slot !in f.busy
    ensures Balanced(Fifo(f.line[1..], f.busy[slot := f.line[0]]),
                     log.(delivered := log.delivered + [f.line[0]]))
  {
    assert f.line == [f.line[0]] + f.line[1..];
    assert f.busy[slot := f.line[0]].Keys == f.busy.Keys + {slot};
  }

  lemma {:induction false} ReturnBalanced(f: Fifo, slot: nat, log: Log)
    requires Balanced(f, log) && slot in f.busy
    ensures Balanced(f.(busy := f.busy - {slot}), log.(released := log.released + 1))
  {
    assert (f.busy - {slot}).Keys == f.busy.Keys - {slot};
  }

  lemma {:induction false} StepBalanced(same: (string, string) -> bool, q: QueueState, e: Event, log: Log)
    requires Valid(q) && Enabled(q, e) && Balanced(Abstract(q), log)
    ensures NonZero(q.waiting) ==> 0 <= q.head < q.Width()
    ensures Step(same, q, e).Shaped() && Balanced(Abstract(Step(same, q, e)), Record(q, e, log))
  {
    if NonZero(q.waiting) { HeadInRange(q); }
    match e
    case AddJob(job) => AddStepBalanced(q, job, log);
    case TakeJob => TakeStepBalanced(q, log);
    case Return(i) =>
      ReleaseRefines(q, i);
      ReturnBalanced(Abstract(q), i, log);
    case Lookup(key) => ScanRefines(q, same, key);
  }

  lemma {:induction false} AddStepBalanced(q: QueueState, job: Job, log: Log)
    requires Valid(q) && Balanced(Abstract(q), log)
    ensures AddState(q, job).0.Shaped()
    ensures Balanced(Abstract(AddState(q, job).0),
                     if AddState(q, job).1 == 0 then log.(accepted := log.accepted + [job.payload]) else log)
  {
    hide AddState, Threads, Order, Added;
    AddRefines(q, job);
    assert log.accepted + [job.payload] == log.delivered + (Abstract(q).line + [job.payload]);
  }

  lemma {:induction false} TakeStepBalanced(q: QueueState, log: Log)
    requires Valid(q) && Enabled(q, TakeJob) && Balanced(Abstract(q), log)
    ensures NonZero(q.waiting) ==> 0 <= q.head < q.Width()
    ensures GetState(q).0.Shaped() && Balanced(Abstract(GetState(q).0), Record(q, TakeJob, log))
  {
    GetRefines(q);
    if Abstract(q).line != [] {
      TakeBalanced(Abstract(q), q.head, log);
    }
  }

  /** In every run, jobs come out in the order they were accepted, and every accepted job is
      waiting, being worked on, or released. */
  lemma {:induction false} FirstInFirstOut(same: (string, string) -> bool, slots: seq<Job>, events: seq<Event>)
    requires Run(same, slots, events).Some?
    ensures var (q, log) := Run(same, slots, events).value;
      && log.accepted == log.delivered + Abstract(q).line
      && |log.accepted| == |Members(q.waiting)| + |Members(q.working)| + log.released
      && (NonZero(q.waiting) ==> 0 <= q.head < q.Width())
  {
    RunBalanced(same, slots, events);
    var (q, log) := Run(same, slots, events).value;
    LineIsPopCount(q);
    GetRefines(q);
  }

  lemma {:induction false} RunBalanced(same: (string, string) -> bool, slots: seq<Job>, events: seq<Event>)
    requires Run(same, slots, events).Some?
    ensures var (q, log) := Run(same, slots, events).value; Balanced(Abstract(q), log)
  {
    if events == [] {
      InitialValid(slots);
      LineIsPopCount(Initial(slots));
    } else {
      var n := |events| - 1;
      RunBalanced(same, slots, events[..n]);
      var (q, log) := Run(same, slots, events[..n]).value;
      StepBalanced(same, q, events[n], log);
    }
  }

  ghost predicate LastAddMetFull(same: (string, string) -> bool, slots: seq<Job>, events: seq<Event>)
  {
    && events != [] && events[|events| - 1].AddJob?
    && Run(same, slots, events[..|events| - 1]).Some?
    && var log := Run(same, slots, events[..|events| - 1]).value.1;
       |log.accepted| == |slots| + log.released
  }

  /** A run is stuck with the lock held exactly when its last event was an add that met as
      many accepted and unreleased jobs as there are slots; nothing can follow it. */
  lemma {:induction false} StuckExactlyWhenFull(same: (string, string) -> bool, slots: seq<Job>, events: seq<Event>)
    requires Run(same, slots, events).Some?
    ensures var q := Run(same, slots, events).value.0;
      && (q.held <==> LastAddMetFull(same, slots, events))
      && (q.held ==> forall e :: Run(same, slots, events + [e]) == None)
  {
    var q := Run(same, slots, events).value.0;
    if events == [] {
      InitialValid(slots);
    } else {
      var n := |events| - 1;
      var (p, log) := Run(same, slots, events[..n]).value;
      FirstInFirstOut(same, slots, events[..n]);
      StepKeeps(same, p, events[n]);
    }
    forall e | q.held
      ensures Run(same, slots, events + [e]) == None
    {
      assert (events + [e])[..|events|] == events;
    }
  }

  // ---------------------------------------------------- slots being worked on

  /** Slot i is being worked on, before and after, and holds the same job, at the same progress;
      its link may have changed, and its status to the text a lookup writes. */
  ghost predicate StillBusy(q: QueueState, q': QueueState, i: nat) {
    && q.Shaped() && q'.Shaped() && i < q.Width() == q'.Width()
    && q.working[i] && q'.working[i]
    && q'.decoding[i].(next := q.decoding[i].next, status := q.decoding[i].status) == q.decoding[i]
    && (q'.decoding[i].status == q.decoding[i].status
        || q'.decoding[i].status == "Decoding index: " + Decimals.Print(i) + " Working on")
  }

  /** Until it is returned, a working slot keeps its job and progress, and its status but for
      lookups: no add fills it and no get hands it out again. */
  lemma {:induction false} BusySlotKept(same: (string, string) -> bool, q: QueueState, e: Event, i: nat)
    requires Valid(q) && Enabled(q, e) && i < q.Width() && q.working[i] && e != Return(i)
    ensures NonZero(q.waiting) ==> 0 <= q.head < q.Width()
    ensures StillBusy(q, Step(same, q, e), i)
    ensures !e.Lookup? ==> Step(same, q, e).decoding[i].status == q.decoding[i].status
    ensures e.TakeJob? ==> GetState(q).1 != Some(i)
    ensures e.AddJob? && AddState(q, e.job).1 == 0 ==> Step(same, q, e).tail != i
  {
    GetRefines(q);
    match e
    case AddJob(job) => AddRefines(q, job);
    case TakeJob =>
    case Return(j) => ReleaseRefines(q, j);
    case Lookup(key) => ScanRefines(q, same, key);
  }

  lemma {:induction false} RunExtend(same: (string, string) -> bool, slots: seq<Job>, events: seq<Event>, e: Event)
    ensures var r, r' := Run(same, slots, events), Run(same, slots, events + [e]);
      && (r'.Some? ==> r.Some?)
      && (r.Some? ==> (r'.Some? <==> Enabled(r.value.0, e)))
      && (r'.Some? ==>
            && (NonZero(r.value.0.waiting) ==> 0 <= r.value.0.head < r.value.0.Width())
            && r'.value.0 == Step(same, r.value.0, e))
  {
    assert (events + [e])[..|events|] == events;
    if Run(same, slots, events).Some? {
      GetRefines(Run(same, slots, events).value.0);
    }
  }

  /** The same over a whole run: between a get and the return, the slot's job is untouched. */
  lemma {:induction false} BusySlotKeptOverRun(same: (string, string) -> bool, slots: seq<Job>,
                                               before: seq<Event>, after: seq<Event>, i: nat)
    requires Run(same, slots, before).Some? && Run(same, slots, before + after).Some?
    requires i < |slots| && Run(same, slots, before).value.0.working[i]
    requires Return(i) !in after
    ensures StillBusy(Run(same, slots, before).value.0, Run(same, slots, before + after).value.0, i)
    ensures (forall e | e in after :: !e.Lookup?) ==>
      Run(same, slots, before + after).value.0.decoding[i].status == Run(same, slots, before).value.0.decoding[i].status
    decreases |after|
  {
    if after == [] {
      assert before + after == before;
    } else {
      var n := |after| - 1;
      hide Run, Step, Threads, Order, Enabled, StillBusy, Valid;
      RunSnoc(same, slots, before, after);
      BusySlotKeptOverRun(same, slots, before, after[..n], i);
      BusyExtend(same, Run(same, slots, before).value.0,
                 Run(same, slots, before + after[..n]).value.0, after[n], i);
    }
  }

  lemma {:induction false} RunSnoc(same: (string, string) -> bool, slots: seq<Job>,
                                   before: seq<Event>, after: seq<Event>)
    requires after != [] && Run(same, slots, before + after).Some?
    ensures var n := |after| - 1;
      var r := Run(same, slots, before + after[..n]);
      && r.Some? && Enabled(r.value.0, after[n])
      && (NonZero(r.value.0.waiting) ==> 0 <= r.value.0.head < r.value.0.Width())
      && Run(same, slots, before + after).value.0 == Step(same, r.value.0, after[n])
  {
    hide Run, Step, Valid, Enabled;
    var n := |after| - 1;
    assert before + after == before + after[..n] + [after[n]];
    RunExtend(same, slots, before + after[..n], after[n]);
  }

  lemma {:induction false} BusyExtend(same: (string, string) -> bool, q: QueueState, p: QueueState, e: Event, i: nat)
    requires Valid(p) && Enabled(p, e) && StillBusy(q, p, i) && e != Return(i)
    ensures NonZero(p.waiting) ==> 0 <= p.head < p.Width()
    ensures StillBusy(q, Step(same, p, e), i)
    ensures !e.Lookup? ==> Step(same, p, e).decoding[i].status == p.decoding[i].status
  {
    hide Step, Threads, Order, Enabled;
    BusySlotKept(same, p, e, i);
  }

  // ------------------------------------------------------------- duplicates

  /** An accepted add raises the number of matches of exactly the keys it satisfies, by one;
      so it leaves at most one match per key only if its own lookup would have found none. */
  lemma {:induction false} AddMatches(same: (string, string) -> bool, q: QueueState, job: Job, key: Payload)
    requires Valid(q) && AddState(q, job).1 == 0
    ensures AddState(q, job).0.Shaped()
    ensures |Matches(AddState(q, job).0, same, key)|
         == |Matches(q, same, key)| + if SameJob(same, job.payload, key) then 1 else 0
  {
    AddRefines(q, job);
    AddedMatches(same, q, AddState(q, job).0, job, AddState(q, job).0.tail, key);
  }

  lemma {:induction false} AddedMatches(same: (string, string) -> bool, q: QueueState, q': QueueState,
                                        job: Job, e: nat, key: Payload)
    requires q.Shaped() && Added(q, q', job, e)
    ensures |Matches(q', same, key)|
         == |Matches(q, same, key)| + if SameJob(same, job.payload, key) then 1 else 0
  {
    var m, m' := Matches(q, same, key), Matches(q', same, key);
    assert e !in m;
    forall i: nat | i < q.Width() && i != e
      ensures i in m' <==> i in m
    {
      assert q'.Occupied(i) <==> q.Occupied(i);
    }
    assert e in m' <==> SameJob(same, job.payload, key);
    assert m' - {e} == m;
    if e in m' {
      assert m' == m + {e};
    }
  }

  lemma {:induction false} StepMatches(same: (string, string) -> bool, q: QueueState, e: Event, key: Payload)
    requires Valid(q) && Enabled(q, e) && !e.AddJob?
    ensures NonZero(q.waiting) ==> 0 <= q.head < q.Width()
    ensures Valid(Step(same, q, e))
    ensures Matches(Step(same, q, e), same, key) <= Matches(q, same, key)
  {
    StepKeeps(same, q, e);
    match e
    case TakeJob => GetRefines(q);
    case Return(i) => ReleaseRefines(q, i);
    case Lookup(k) => ScanRefines(q, same, k);
    case AddJob(_) =>
  }

  lemma {:induction false} ScanMatches(same: (string, string) -> bool, q: QueueState, k: Payload, key: Payload)
    requires Valid(q)
    ensures ScanState(q, same, k).Shaped()
    ensures Matches(ScanState(q, same, k), same, key) == Matches(q, same, key)
  {
    ScanRefines(q, same, k);
    hide Valid, ScanState;
    var q' := ScanState(q, same, k);
    forall i: nat | i < q.Width()
      ensures Matching(q', same, key, i) <==> Matching(q, same, key, i)
    {
      assert q'.Occupied(i) == q.Occupied(i);
    }
  }

  lemma {:induction false} SameMatches(same: (string, string) -> bool, q: QueueState, a: Payload, b: Payload)
    requires Equivalence(same) && q.Shaped() && SameJob(same, a, b)
    ensures Matches(q, same, a) == Matches(q, same, b)
  {
    forall i: nat | i < q.Width() && q.Occupied(i)
      ensures Matching(q, same, a, i) <==> Matching(q, same, b, i)
    {
      var x := q.decoding[i].payload;
      assert same(x.sourceId, a.sourceId) <==> same(x.sourceId, b.sourceId);
      assert same(x.outputFileType, a.outputFileType) <==> same(x.outputFileType, b.outputFileType);
    }
  }

  lemma {:induction false} SubsetCard(a: set<nat>, b: set<nat>)
    requires a <= b
    ensures |a| <= |b|
  {
    assert b == a + (b - a);
  }
}
