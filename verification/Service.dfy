/** What the requests and encoder threads together do with the queue: every run of them is a run of
    the queue, and the threads take the jobs in the order in which the requests added them. */
module Service {
  import opened Options
  import opened Masks
  import opened DecodingQueue
  import opened Transcoder
  import opened Duplicates
  import opened Lookups
  import QueueRuns

  // ------------------------------------------------------------ runs of the queue

  /** The critical section of the queue that an action is, if it is one: a lookup of the request's
      job, the add of that job, a get, or the return of the slot that the thread took. */
  ghost function EventOf(s: System, a: Action): Option<QueueRuns.Event> {
    match a
    case Scan(pid) =>
      if pid in s.requesters && s.requesters[pid].Asking?
      then Some(QueueRuns.Lookup(s.requesters[pid].job.payload)) else None
    case Insert(pid) =>
      if pid in s.requesters && s.requesters[pid].Missing? then Some(QueueRuns.AddJob(s.requesters[pid].job)) else None
    case Fetch(_) => Some(QueueRuns.TakeJob)
    case Finish(wid) =>
      if wid in s.workers && s.workers[wid].Encoding? then Some(QueueRuns.Return(s.workers[wid].slot)) else None
    case _ => None
  }

  /** The critical sections among the first n actions of a run. */
  ghost function QueueEvents(c: Config, s: System, actions: seq<Action>, n: nat): seq<QueueRuns.Event>
    requires Inv(s) && RunFrom(c, s, actions).Some? && n <= |actions|
  {
    if n == 0 then []
    else
      match EventOf(After(c, s, actions, n - 1), actions[n - 1])
      case None => QueueEvents(c, s, actions, n - 1)
      case Some(e) => QueueEvents(c, s, actions, n - 1) + [e]
  }

  /** Each action makes its own step of the queue and no other. */
  lemma {:induction false} ActionIsEvent(c: Config, s: System, a: Action)
    requires Inv(s) && HeadOk(s.q) && Do(c, s, a).Some?
    ensures var q' := Do(c, s, a).value.q;
      match EventOf(s, a)
      case None => q' == s.q
      case Some(e) => QueueRuns.Enabled(s.q, e) && q' == QueueRuns.Step(c.same, s.q, e)
  {
    if a.Finish? {
      FinishKeepsInv(c, s, a.wid);
    }
    hide AddState, ScanState, ReleaseState, Matches, Valid;
  }

  lemma {:induction false} EventsNext(c: Config, s: System, actions: seq<Action>, n: nat)
    requires Inv(s) && RunFrom(c, s, actions).Some? && n < |actions|
    ensures QueueEvents(c, s, actions, n + 1) ==
      match EventOf(After(c, s, actions, n), actions[n])
      case None => QueueEvents(c, s, actions, n)
      case Some(e) => QueueEvents(c, s, actions, n) + [e]
  {
    hide Inv, RunFrom, After, EventOf;
  }

  lemma {:induction false} QueueRunNone(c: Config, slots: seq<Job>)
    ensures var r := QueueRuns.Run(c.same, slots, []); r.Some? && r.value.0 == Booted(slots).q
  {
  }

  lemma {:induction false} QueueRunMore(c: Config, slots: seq<Job>, events: seq<QueueRuns.Event>,
                                        s: System, a: Action)
    requires QueueRuns.Run(c.same, slots, events).Some? && QueueRuns.Run(c.same, slots, events).value.0 == s.q
    requires Inv(s) && HeadOk(s.q) && Do(c, s, a).Some?
    ensures var r := QueueRuns.Run(c.same, slots, match EventOf(s, a) case None => events case Some(e) => events + [e]);
      r.Some? && r.value.0 == Do(c, s, a).value.q
  {
    hide *;
    ActionIsEvent(c, s, a);
    match EventOf(s, a)
    case None =>
    case Some(e) => QueueRuns.RunExtend(c.same, slots, events, e);
  }

  lemma {:induction false} NoEvents(c: Config, s: System, actions: seq<Action>)
    requires Inv(s) && RunFrom(c, s, actions).Some?
    ensures QueueEvents(c, s, actions, 0) == []
  {
  }

  lemma {:induction false} QueueRunTo(c: Config, slots: seq<Job>, actions: seq<Action>, n: nat)
    requires Inv(Booted(slots)) && RunFrom(c, Booted(slots), actions).Some? && n <= |actions|
    ensures var r := QueueRuns.Run(c.same, slots, QueueEvents(c, Booted(slots), actions, n));
      r.Some? && r.value.0 == After(c, Booted(slots), actions, n).q
  {
    hide *;
    var s := Booted(slots);
    if n == 0 {
      NoEvents(c, s, actions);
      QueueRunNone(c, slots);
      AfterNone(c, s, actions);
    } else {
      QueueRunTo(c, slots, actions, n - 1);
      AfterNext(c, s, actions, n - 1);
      EventsNext(c, s, actions, n - 1);
      QueueRunMore(c, slots, QueueEvents(c, s, actions, n - 1), After(c, s, actions, n - 1), actions[n - 1]);
    }
  }

  /** Every run of the requests and threads is a run of the queue, with its critical sections as
      the events; so all that holds of runs of the queue holds of it. */
  lemma {:induction false} IsQueueRun(c: Config, slots: seq<Job>, actions: seq<Action>)
    requires Run(c, slots, actions).Some?
    ensures Inv(Booted(slots)) && RunFrom(c, Booted(slots), actions).Some?
    ensures var r := QueueRuns.Run(c.same, slots, QueueEvents(c, Booted(slots), actions, |actions|));
      r.Some? && r.value.0 == Run(c, slots, actions).value.q
  {
    BootedInv(slots);
    QueueRunTo(c, slots, actions, |actions|);
    AfterIsRun(c, Booted(slots), actions, |actions|);
    assert actions[..|actions|] == actions;
  }

  // ------------------------------------------------------------ first in, first out

  /** The job that an action adds to a queue with room. */
  ghost function AddedBy(s: System, a: Action): seq<Payload>
    requires s.q.Shaped()
  {
    if a.Insert? && a.pid in s.requesters && s.requesters[a.pid].Missing? && HasRoom(s.q)
    then [s.requesters[a.pid].job.payload] else []
  }

  /** The job that a thread holds after it has been to the queue. */
  ghost function TakenBy(s: System, a: Action): seq<Payload> {
    if a.Fetch? && a.wid in s.workers && s.workers[a.wid].Got? then [s.workers[a.wid].job] else []
  }

  /** The jobs added and the jobs taken by the first n actions, in order. */
  ghost function AddedJobs(c: Config, s: System, actions: seq<Action>, n: nat): seq<Payload>
    requires Inv(s) && RunFrom(c, s, actions).Some? && n <= |actions|
  {
    if n == 0 then []
    else AddedJobs(c, s, actions, n - 1) + AddedBy(After(c, s, actions, n - 1), actions[n - 1])
  }

  ghost function TakenJobs(c: Config, s: System, actions: seq<Action>, n: nat): seq<Payload>
    requires Inv(s) && RunFrom(c, s, actions).Some? && n <= |actions|
  {
    if n == 0 then []
    else TakenJobs(c, s, actions, n - 1) + TakenBy(After(c, s, actions, n), actions[n - 1])
  }

  /** What an action adds stands at the end of the line, what it takes stood at the front. */
  lemma {:induction false} LineStep(c: Config, s: System, a: Action)
    requires Inv(s) && HeadOk(s.q) && Do(c, s, a).Some?
    ensures var s' := Do(c, s, a).value;
      s'.q.Shaped() && Abstract(s.q).line + AddedBy(s, a) == TakenBy(s', a) + Abstract(s'.q).line
  {
    assert !a.Insert? ==> AddedBy(s, a) == [];
    assert !a.Fetch? ==> forall t :: TakenBy(t, a) == [];
    hide *;
    if a.Insert? {
      LineInsert(c, s, a.pid);
    } else if a.Fetch? {
      LineFetch(c, s, a.wid);
    } else {
      LineOther(c, s, a);
    }
  }

  lemma {:induction false} LineOther(c: Config, s: System, a: Action)
    requires Inv(s) && HeadOk(s.q) && Do(c, s, a).Some? && !a.Insert? && !a.Fetch?
    ensures var s' := Do(c, s, a).value;
      s'.q.Shaped() && Abstract(s.q).line == Abstract(s'.q).line
  {
    if a.Scan? {
      ScanRefines(s.q, c.same, s.requesters[a.pid].job.payload);
    } else if a.Finish? {
      FinishKeepsInv(c, s, a.wid);
      ReleaseRefines(s.q, s.workers[a.wid].index);
    }
    hide Abstract, Valid, Held, ScanState, ReleaseState, Matches;
  }

  lemma {:induction false} LineInsert(c: Config, s: System, pid: nat)
    requires Inv(s) && HeadOk(s.q) && Do(c, s, Insert(pid)).Some?
    ensures var s' := Do(c, s, Insert(pid)).value;
      s'.q.Shaped() && Abstract(s.q).line + AddedBy(s, Insert(pid)) == Abstract(s'.q).line
  {
    AddRefines(s.q, s.requesters[pid].job);
    AddedIfRoom(s.q, s.requesters[pid].job);
    hide Abstract, Valid, AddState, HasRoom, DecodingQueue.Added;
  }

  lemma {:induction false} LineFetch(c: Config, s: System, wid: nat)
    requires Inv(s) && HeadOk(s.q) && Do(c, s, Fetch(wid)).Some?
    ensures var s' := Do(c, s, Fetch(wid)).value;
      s'.q.Shaped() && Abstract(s.q).line == TakenBy(s', Fetch(wid)) + Abstract(s'.q).line
  {
    assert Valid(s.q);
    hide *;
    LineGet(s.q);
    FetchDone(c, s, wid);
  }

  lemma {:induction false} LineGet(q: QueueState)
    requires Valid(q)
    ensures NonZero(q.waiting) ==> 0 <= q.head < q.Width()
    ensures var (q', slot) := GetState(q);
      && q'.Shaped()
      && (slot.Some? ==> slot.value < |q.decoding|)
      && Abstract(q).line == (if slot.None? then [] else [q.decoding[slot.value].payload]) + Abstract(q').line
  {
    GetRefines(q);
    hide Valid, Order, Threads, NonZero;
    var line := Abstract(q).line;
    hide Abstract;
    if GetState(q).1.Some? {
      assert line == [line[0]] + line[1..];
    }
  }

  lemma {:induction false} FetchDone(c: Config, s: System, wid: nat)
    requires HeadOk(s.q) && Do(c, s, Fetch(wid)).Some?
    ensures var (q', slot) := GetState(s.q);
      && Do(c, s, Fetch(wid)).value.q == q'
      && (slot.Some? && slot.value < |s.q.decoding| ==>
            TakenBy(Do(c, s, Fetch(wid)).value, Fetch(wid)) == [s.q.decoding[slot.value].payload])
      && (slot.None? ==> TakenBy(Do(c, s, Fetch(wid)).value, Fetch(wid)) == [])
  {
    hide GetState;
  }

  lemma {:induction false} LineTo(c: Config, s: System, actions: seq<Action>, n: nat)
    requires Inv(s) && RunFrom(c, s, actions).Some? && n <= |actions| && Abstract(s.q).line == []
    ensures AddedJobs(c, s, actions, n) == TakenJobs(c, s, actions, n) + Abstract(After(c, s, actions, n).q).line
  {
    hide *;
    if n == 0 {
      NoJobs(c, s, actions);
      AfterNone(c, s, actions);
    } else {
      LineTo(c, s, actions, n - 1);
      AfterNext(c, s, actions, n - 1);
      JobsNext(c, s, actions, n - 1);
      var t, a := After(c, s, actions, n - 1), actions[n - 1];
      LineStep(c, t, a);
      Shifted(TakenJobs(c, s, actions, n - 1), Abstract(t.q).line, AddedBy(t, a),
              TakenBy(After(c, s, actions, n), a), Abstract(After(c, s, actions, n).q).line);
    }
  }

  lemma {:induction false} NoJobs(c: Config, s: System, actions: seq<Action>)
    requires Inv(s) && RunFrom(c, s, actions).Some?
    ensures AddedJobs(c, s, actions, 0) == TakenJobs(c, s, actions, 0) == []
  {
  }

  lemma {:induction false} JobsNext(c: Config, s: System, actions: seq<Action>, n: nat)
    requires Inv(s) && RunFrom(c, s, actions).Some? && n < |actions|
    ensures AddedJobs(c, s, actions, n + 1)
         == AddedJobs(c, s, actions, n) + AddedBy(After(c, s, actions, n), actions[n])
    ensures TakenJobs(c, s, actions, n + 1)
         == TakenJobs(c, s, actions, n) + TakenBy(After(c, s, actions, n + 1), actions[n])
  {
    hide Inv, RunFrom, After, AddedBy, TakenBy;
  }

  lemma {:induction false} Shifted(taken: seq<Payload>, line: seq<Payload>, added: seq<Payload>,
                                   front: seq<Payload>, line': seq<Payload>)
    requires line + added == front + line'
    ensures (taken + line) + added == (taken + front) + line'
  {
    assert (taken + line) + added == taken + (line + added);
  }

  /** In every run of any number of requests and threads the threads take the jobs in the order in
      which the requests added them, each once, and what was added and not taken is still in line. */
  lemma {:induction false} TakenInOrder(c: Config, slots: seq<Job>, actions: seq<Action>)
    requires Run(c, slots, actions).Some?
    ensures Inv(Booted(slots)) && RunFrom(c, Booted(slots), actions).Some?
    ensures var s, n := Booted(slots), |actions|;
      && Run(c, slots, actions).value.q.Shaped()
      && AddedJobs(c, s, actions, n) == TakenJobs(c, s, actions, n) + Abstract(Run(c, slots, actions).value.q).line
  {
    BootedInv(slots);
    InitialValid(slots);
    LineTo(c, Booted(slots), actions, |actions|);
    AfterIsRun(c, Booted(slots), actions, |actions|);
    assert actions[..|actions|] == actions;
  }
}
