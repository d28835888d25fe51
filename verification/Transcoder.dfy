/** The clients of the decoding queue: request handlers that look a job up, add it and
    start an encoder thread, and encoder threads that take jobs until the queue is empty.
    Each action is one critical section or one step outside the lock, and the processes
    interleave freely. */
module Transcoder {
  import opened Options
  import opened Masks
  import opened DecodingQueue
  import QueueRuns

  const MAX_WORKERS := 4

  /** transcode_audio, from the built job to the end of the request. */
  datatype Requester =
    | Asking(job: Job)    // before does_decoding_job_exsits
    | Missing(job: Job)   // the lookup found nothing; before add_decoding_job_queue
    | Added               // the job is in the queue; before the spawn test
    | Done

  /** encoder_thread. While it holds a slot, `job` is what the slot contained when it was taken. */
  datatype Worker =
    | Spawned
    | Fetching
    | Got(slot: nat, job: Payload)                   // before index_flag is computed
    | Encoding(slot: nat, job: Payload, index: int)  // index_flag computed from the job's index
    | Leaving

  datatype System = System(q: QueueState, requesters: map<nat, Requester>, workers: map<nat, Worker>)

  datatype Action =
    | Ask(pid: nat, job: Job)
    | Scan(pid: nat)
    | Insert(pid: nat)
    | Spawn(pid: nat, wid: nat)
    | Start(wid: nat)
    | Fetch(wid: nat)
    | ReadIndex(wid: nat)
    | Finish(wid: nat)
    | Leave(wid: nat)

  /** The fixed part of a run: the process's thread counter, which the source reads in the
      spawn test and never changes, and the string comparison. */
  datatype Config = Config(numDecodingThreads: int, same: (string, string) -> bool)

  predicate NeedsLock(a: Action) {
    a.Scan? || a.Insert? || a.Start? || a.Fetch? || a.Finish? || a.Leave?
  }

  predicate HeadOk(q: QueueState) {
    q.Shaped() && (NonZero(q.waiting) ==> 0 <= q.head < q.Width())
  }

  /** One action, or None when it is not enabled. */
  ghost function Do(c: Config, s: System, a: Action): Option<System>
    requires HeadOk(s.q)
  {
    if NeedsLock(a) && s.q.held then None
    else match a
      case Ask(pid, job) =>
        if pid in s.requesters then None
        else Some(s.(requesters := s.requesters[pid := Asking(job)]))
      case Scan(pid) =>
        if pid !in s.requesters || !s.requesters[pid].Asking? then None
        else
          var job := s.requesters[pid].job;
          Some(s.(q := ScanState(s.q, c.same, job.payload),
                  requesters := s.requesters[pid := if Matches(s.q, c.same, job.payload) == {}
                                                    then Missing(job) else Done]))
      case Insert(pid) =>
        if pid !in s.requesters || !s.requesters[pid].Missing? then None
        else
          var (q, status) := AddState(s.q, s.requesters[pid].job);
          Some(s.(q := q, requesters := s.requesters[pid := if status == 0 then Added else Done]))
      case Spawn(pid, wid) =>
        if pid !in s.requesters || !s.requesters[pid].Added? || wid in s.workers then None
        else
          Some(s.(requesters := s.requesters[pid := Done],
                  workers := if c.numDecodingThreads < MAX_WORKERS then s.workers[wid := Spawned] else s.workers))
      case Start(wid) =>
        if wid !in s.workers || !s.workers[wid].Spawned? then None
        else Some(s.(workers := s.workers[wid := Fetching]))
      case Fetch(wid) =>
        if wid !in s.workers || !s.workers[wid].Fetching? then None
        else
          var (q, slot) := GetState(s.q);
          Some(s.(q := q, workers := s.workers[wid :=
            match slot
            case None => Leaving
            case Some(i) => Got(i, if i < s.q.Width() then s.q.decoding[i].payload else BLANK)]))
      case ReadIndex(wid) =>
        if wid !in s.workers || !s.workers[wid].Got? || s.workers[wid].slot >= s.q.Width() then None
        else
          var w := s.workers[wid];
          Some(s.(workers := s.workers[wid := Encoding(w.slot, w.job, s.q.decoding[w.slot].index)]))
      case Finish(wid) =>
        if wid !in s.workers || !s.workers[wid].Encoding? || !(0 <= s.workers[wid].index < s.q.Width()) then None
        else
          Some(s.(q := ReleaseState(s.q, s.workers[wid].index), workers := s.workers[wid := Fetching]))
      case Leave(wid) =>
        if wid !in s.workers || !s.workers[wid].Leaving? then None
        else Some(s.(workers := s.workers - {wid}))
  }

  const BLANK := Payload("", "", "", "", "", "", "", "", "")

  function Booted(slots: seq<Job>): System {
    System(Initial(slots), map[], map[])
  }

  // ------------------------------------------------------------- invariant

  predicate Holds(w: Worker) {
    w.Got? || w.Encoding?
  }

  /** Every worker in its loop holds a working slot of its own, on the job it took; every
      working slot has its worker; the index a worker will release is its slot. */
  ghost predicate Held(q: QueueState, workers: map<nat, Worker>)
    requires q.Shaped()
  {
    && (forall w | w in workers && Holds(workers[w]) ::
          && workers[w].slot < q.Width()
          && q.working[workers[w].slot]
          && q.decoding[workers[w].slot].payload == workers[w].job
          && (workers[w].Encoding? ==> workers[w].index == workers[w].slot))
    && (forall v, w | v in workers && w in workers && v != w && Holds(workers[v]) && Holds(workers[w]) ::
          workers[v].slot != workers[w].slot)
    && (forall i: nat | i < q.Width() && q.working[i] ::
          exists w :: w in workers && Holds(workers[w]) && workers[w].slot == i)
  }

  ghost predicate Inv(s: System) {
    Valid(s.q) && Held(s.q, s.workers)
  }

  /** Someone will still look at the queue: a requester about to start a thread, or a thread
      that has not yet seen the queue empty. */
  ghost predicate Attended(s: System) {
    || (exists pid :: pid in s.requesters && s.requesters[pid].Added?)
    || (exists w :: w in s.workers && !s.workers[w].Leaving?)
  }

  ghost predicate Stranded(s: System) {
    NonZero(s.q.waiting) && !Attended(s)
  }

  lemma {:induction false} HeldSamePlaces(q: QueueState, q': QueueState, workers: map<nat, Worker>)
    requires q.Shaped() && q'.Shaped() && q'.Width() == q.Width() && q'.working == q.working
    requires forall i: nat | i < q.Width() && q.working[i] :: q'.decoding[i].payload == q.decoding[i].payload
    requires Held(q, workers)
    ensures Held(q', workers)
  {
  }

  lemma {:induction false} HeldTake(q: QueueState, q': QueueState, workers: map<nat, Worker>, wid: nat, i: nat)
    requires q.Shaped() && q'.Shaped() && q'.decoding == q.decoding && i < q.Width() && !q.working[i]
    requires q'.working == q.working[i := true]
    requires Held(q, workers) && wid in workers && !Holds(workers[wid])
    ensures Held(q', workers[wid := Got(i, q.decoding[i].payload)])
  {
    var workers' := workers[wid := Got(i, q.decoding[i].payload)];
    forall j: nat | j < q.Width() && q'.working[j]
      ensures exists w :: w in workers' && Holds(workers'[w]) && workers'[w].slot == j
    {
      if j == i {
        assert workers'[wid].slot == j;
      } else {
        var w :| w in workers && Holds(workers[w]) && workers[w].slot == j;
        assert workers'[w].slot == j;
      }
    }
  }

  /** A worker that holds nothing may change to another state that holds nothing. */
  lemma {:induction false} HeldIdle(q: QueueState, workers: map<nat, Worker>, workers': map<nat, Worker>)
    requires q.Shaped() && Held(q, workers)
    requires forall w | w in workers && Holds(workers[w]) :: w in workers' && workers'[w] == workers[w]
    requires forall w | w in workers' && Holds(workers'[w]) :: w in workers && workers[w] == workers'[w]
    ensures Held(q, workers')
  {
    forall j: nat | j < q.Width() && q.working[j]
      ensures exists w :: w in workers' && Holds(workers'[w]) && workers'[w].slot == j
    {
      var w :| w in workers && Holds(workers[w]) && workers[w].slot == j;
      assert workers'[w].slot == j;
    }
  }

  lemma {:induction false} HeldReadIndex(q: QueueState, workers: map<nat, Worker>, wid: nat)
    requires q.Shaped() && Held(q, workers) && wid in workers && workers[wid].Got?
    requires q.decoding[workers[wid].slot].index == workers[wid].slot
    ensures Held(q, workers[wid := Encoding(workers[wid].slot, workers[wid].job, workers[wid].slot)])
  {
    var workers' := workers[wid := Encoding(workers[wid].slot, workers[wid].job, workers[wid].slot)];
    forall j: nat | j < q.Width() && q.working[j]
      ensures exists w :: w in workers' && Holds(workers'[w]) && workers'[w].slot == j
    {
      var w :| w in workers && Holds(workers[w]) && workers[w].slot == j;
      assert workers'[w].slot == j;
    }
  }

  lemma {:induction false} HeldRelease(q: QueueState, q': QueueState, workers: map<nat, Worker>, wid: nat, i: nat)
    requires q.Shaped() && q'.Shaped() && q'.decoding == q.decoding && i < q.Width()
    requires q'.working == q.working[i := false]
    requires Held(q, workers) && wid in workers && Holds(workers[wid]) && workers[wid].slot == i
    ensures Held(q', workers[wid := Fetching])
  {
    var workers' := workers[wid := Fetching];
    forall j: nat | j < q.Width() && q'.working[j]
      ensures exists w :: w in workers' && Holds(workers'[w]) && workers'[w].slot == j
    {
      var w :| w in workers && Holds(workers[w]) && workers[w].slot == j;
      assert workers'[w].slot == j;
    }
  }

  lemma {:induction false} InvHead(s: System)
    requires Inv(s)
    ensures HeadOk(s.q)
  {
    if NonZero(s.q.waiting) { HeadInRange(s.q); }
  }

  lemma {:induction false} ScanKeepsInv(c: Config, s: System, pid: nat)
    requires Inv(s) && HeadOk(s.q) && Do(c, s, Scan(pid)).Some?
    ensures var s' := Do(c, s, Scan(pid)).value;
      Inv(s') && s'.q.Width() == s.q.Width()
  {
    hide Held, Matches;
    var s' := Do(c, s, Scan(pid)).value;
    ScanRefines(s.q, c.same, s.requesters[pid].job.payload);
    HeldSamePlaces(s.q, s'.q, s.workers);
  }

  lemma {:induction false} InsertKeepsInv(c: Config, s: System, pid: nat)
    requires Inv(s) && HeadOk(s.q) && Do(c, s, Insert(pid)).Some?
    ensures var s' := Do(c, s, Insert(pid)).value;
      Inv(s') && s'.q.Width() == s.q.Width()
  {
    hide Held, AddState;
    var s' := Do(c, s, Insert(pid)).value;
    AddRefines(s.q, s.requesters[pid].job);
    AddedPlaces(s.q, s.requesters[pid].job);
    hide Valid, DecodingQueue.Added;
    HeldSamePlaces(s.q, s'.q, s.workers);
  }

  /** An add changes nothing about the slots being worked on. */
  lemma {:induction false} AddedPlaces(q: QueueState, job: Job)
    requires Valid(q)
    ensures var q' := AddState(q, job).0;
      && q'.Shaped() && q'.Width() == q.Width() && q'.working == q.working
      && forall i: nat | i < q.Width() && q.working[i] ::
           q'.decoding[i].payload == q.decoding[i].payload && q'.decoding[i].index == q.decoding[i].index
  {
    AddRefines(q, job);
    hide AddState, Threads, Order;
  }

  lemma {:induction false} ReadIndexKeepsInv(c: Config, s: System, wid: nat)
    requires Inv(s) && HeadOk(s.q) && Do(c, s, ReadIndex(wid)).Some?
    ensures var s' := Do(c, s, ReadIndex(wid)).value;
      Inv(s') && s'.q.Width() == s.q.Width()
  {
    assert s.q.Occupied(s.workers[wid].slot);
    HeldReadIndex(s.q, s.workers, wid);
    hide Valid, Held;
  }

  lemma {:induction false} FinishKeepsInv(c: Config, s: System, wid: nat)
    requires Inv(s) && HeadOk(s.q) && Do(c, s, Finish(wid)).Some?
    ensures var s' := Do(c, s, Finish(wid)).value;
      Inv(s') && s'.q.Width() == s.q.Width()
    ensures s.workers[wid].index == s.workers[wid].slot
    ensures s.q.decoding[s.workers[wid].slot].payload == s.workers[wid].job
  {
    var s' := Do(c, s, Finish(wid)).value;
    var i: nat := s.workers[wid].index;
    ReleaseRefines(s.q, i);
    HeldRelease(s.q, s'.q, s.workers, wid, i);
    hide Valid;
  }

  lemma {:induction false} OtherKeepsInv(c: Config, s: System, a: Action)
    requires Inv(s) && HeadOk(s.q) && Do(c, s, a).Some? && (a.Ask? || a.Spawn? || a.Start? || a.Leave?)
    ensures Inv(Do(c, s, a).value) && Do(c, s, a).value.q == s.q
  {
    hide Valid, Held;
    if !a.Ask? {
      HeldIdle(s.q, s.workers, Do(c, s, a).value.workers);
    }
  }

  /** Every action of every process keeps the invariant, and the slot a worker gives back
      is the one it took, still holding the job it took. */
  lemma {:induction false} ActionKeepsInv(c: Config, s: System, a: Action)
    requires Inv(s) && HeadOk(s.q) && Do(c, s, a).Some?
    ensures Inv(Do(c, s, a).value)
    ensures Do(c, s, a).value.q.Width() == s.q.Width()
    ensures a.Finish? ==> s.workers[a.wid].index == s.workers[a.wid].slot
                          && s.q.decoding[s.workers[a.wid].slot].payload == s.workers[a.wid].job
  {
    hide *;
    match a
    case Scan(pid) => ScanKeepsInv(c, s, pid);
    case Insert(pid) => InsertKeepsInv(c, s, pid);
    case Fetch(wid) => FetchKeepsInv(c, s, wid);
    case ReadIndex(wid) => ReadIndexKeepsInv(c, s, wid);
    case Finish(wid) => FinishKeepsInv(c, s, wid);
    case _ => OtherKeepsInv(c, s, a);
  }

  lemma {:induction false} FetchKeepsInv(c: Config, s: System, wid: nat)
    requires Inv(s) && HeadOk(s.q) && Do(c, s, Fetch(wid)).Some?
    ensures var s' := Do(c, s, Fetch(wid)).value;
      && Inv(s') && s'.q.Width() == s.q.Width()
      && (NonZero(s.q.waiting) ==> Abstract(s'.q).line == Abstract(s.q).line[1..] && s'.workers[wid].Got?)
      && (!NonZero(s.q.waiting) ==> s'.q == s.q)
  {
    GetRefines(s.q);
    var s' := Do(c, s, Fetch(wid)).value;
    if NonZero(s.q.waiting) {
      HeldTake(s.q, s'.q, s.workers, wid, s.q.head);
    } else {
      HeldIdle(s.q, s.workers, s'.workers);
    }
  }

  // ---------------------------------------------------------------- runs

  /** The system after the actions, or None once some action was not enabled. */
  ghost function RunFrom(c: Config, s: System, actions: seq<Action>): (r: Option<System>)
    requires Inv(s)
    ensures r.Some? ==> Inv(r.value) && r.value.q.Width() == s.q.Width()
    decreases |actions|
  {
    InvHead(s);
    if actions == [] then Some(s)
    else
      match Do(c, s, actions[0])
      case None => None
      case Some(s') =>
        ActionKeepsInv(c, s, actions[0]);
        RunFrom(c, s', actions[1..])
  }

  lemma {:induction false} BootedInv(slots: seq<Job>)
    ensures Inv(Booted(slots))
    ensures !Stranded(Booted(slots))
  {
    InitialValid(slots);
  }

  ghost function Run(c: Config, slots: seq<Job>, actions: seq<Action>): Option<System> {
    BootedInv(slots);
    RunFrom(c, Booted(slots), actions)
  }

  /** In every reachable state no two workers hold the same slot, the held slots are exactly
      the working ones, and a held slot still contains the job its worker took. */
  lemma {:induction false} WorkersOwnTheirSlots(c: Config, slots: seq<Job>, actions: seq<Action>)
    requires Run(c, slots, actions).Some?
    ensures var s := Run(c, slots, actions).value;
      && |s.q.decoding| == |s.q.working| == |slots|
      && (forall v, w | v in s.workers && w in s.workers && Holds(s.workers[v]) && Holds(s.workers[w]) && v != w ::
            s.workers[v].slot != s.workers[w].slot)
      && (forall i: nat | i < |slots| ::
            s.q.working[i] <==> exists w :: w in s.workers && Holds(s.workers[w]) && s.workers[w].slot == i)
      && (forall w | w in s.workers && Holds(s.workers[w]) ::
            && s.workers[w].slot < |slots|
            && s.q.decoding[s.workers[w].slot].payload == s.workers[w].job)
  {
    BootedInv(slots);
  }

  // ------------------------------------------------------------ no job is stranded

  lemma {:induction false} InsertAttended(c: Config, s: System, pid: nat)
    requires HeadOk(s.q) && Do(c, s, Insert(pid)).Some? && !Stranded(s)
    ensures !Stranded(Do(c, s, Insert(pid)).value)
  {
    var s' := Do(c, s, Insert(pid)).value;
    if AddState(s.q, s.requesters[pid].job).1 == 0 {
      assert s'.requesters[pid].Added?;
    } else {
      assert s'.q.waiting == s.q.waiting;
      if NonZero(s.q.waiting) {
        StillAttended(s, s', pid);
      }
    }
  }

  lemma {:induction false} RequesterAttended(c: Config, s: System, a: Action)
    requires HeadOk(s.q) && Do(c, s, a).Some? && !Stranded(s) && (a.Ask? || a.Scan?)
    ensures !Stranded(Do(c, s, a).value)
  {
    var s' := Do(c, s, a).value;
    hide Matches;
    assert s'.q.waiting == s.q.waiting && s'.workers == s.workers;
    if NonZero(s.q.waiting) {
      StillAttended(s, s', a.pid);
    }
  }

  lemma {:induction false} LeaveAttended(c: Config, s: System, wid: nat)
    requires HeadOk(s.q) && Do(c, s, Leave(wid)).Some? && !Stranded(s)
    ensures !Stranded(Do(c, s, Leave(wid)).value)
  {
    var s' := Do(c, s, Leave(wid)).value;
    if NonZero(s.q.waiting) {
      if pid :| pid in s.requesters && s.requesters[pid].Added? {
        assert s'.requesters[pid].Added?;
      } else {
        var w :| w in s.workers && !s.workers[w].Leaving?;
        assert s'.workers[w] == s.workers[w];
      }
    }
  }

  /** These actions leave a thread that has not seen the queue empty. */
  lemma {:induction false} ThreadAttended(c: Config, s: System, a: Action)
    requires HeadOk(s.q) && Do(c, s, a).Some? && c.numDecodingThreads < 4
    requires a.Spawn? || a.Start? || a.ReadIndex? || a.Finish?
    ensures !Stranded(Do(c, s, a).value)
  {
    hide NonZero;
    assert a.wid in Do(c, s, a).value.workers && !Do(c, s, a).value.workers[a.wid].Leaving?;
  }

  lemma {:induction false} FetchAttended(c: Config, s: System, wid: nat)
    requires Inv(s) && HeadOk(s.q) && Do(c, s, Fetch(wid)).Some?
    ensures !Stranded(Do(c, s, Fetch(wid)).value)
  {
    FetchKeepsInv(c, s, wid);
    var s' := Do(c, s, Fetch(wid)).value;
    hide Inv;
    if NonZero(s.q.waiting) {
      assert wid in s'.workers && s'.workers[wid].Got?;
    }
  }

  /** While the spawn test passes, every action leaves a non-empty queue attended. */
  lemma {:induction false} ActionKeepsAttended(c: Config, s: System, a: Action)
    requires Inv(s) && HeadOk(s.q) && Do(c, s, a).Some? && !Stranded(s)
    requires c.numDecodingThreads < 4
    ensures !Stranded(Do(c, s, a).value)
  {
    hide *;
    match a
    case Insert(pid) => InsertAttended(c, s, pid);
    case Fetch(wid) => FetchAttended(c, s, wid);
    case Ask(_, _) => RequesterAttended(c, s, a);
    case Scan(_) => RequesterAttended(c, s, a);
    case Leave(wid) => LeaveAttended(c, s, wid);
    case _ => ThreadAttended(c, s, a);
  }

  lemma {:induction false} StillAttended(s: System, s': System, pid: nat)
    requires Attended(s) && s'.workers == s.workers
    requires pid in s.requesters ==> !s.requesters[pid].Added?
    requires forall p | p in s.requesters && p != pid :: p in s'.requesters && s'.requesters[p] == s.requesters[p]
    ensures Attended(s')
  {
    if p :| p in s.requesters && s.requesters[p].Added? {
      assert s'.requesters[p].Added?;
    } else {
      var w :| w in s.workers && !s.workers[w].Leaving?;
      assert !s'.workers[w].Leaving?;
    }
  }

  lemma {:induction false} AttendedFrom(c: Config, s: System, actions: seq<Action>)
    requires Inv(s) && !Stranded(s) && RunFrom(c, s, actions).Some?
    requires c.numDecodingThreads < 4
    ensures !Stranded(RunFrom(c, s, actions).value)
    decreases |actions|
  {
    if actions != [] {
      InvHead(s);
      ActionKeepsAttended(c, s, actions[0]);
      ActionKeepsInv(c, s, actions[0]);
      AttendedFrom(c, Do(c, s, actions[0]).value, actions[1..]);
    }
  }

  /** No reachable state strands a waiting job, exactly when the spawn test passes: it reads
      a counter that stays at its initial value, so every accepted job starts a thread. */
  lemma {:induction false} NoJobStranded(c: Config, slots: seq<Job>)
    requires slots != []
    ensures (forall actions :: Run(c, slots, actions).Some? ==> !Stranded(Run(c, slots, actions).value))
       <==> c.numDecodingThreads < 4
  {
    BootedInv(slots);
    if c.numDecodingThreads < 4 {
      forall actions | Run(c, slots, actions).Some?
        ensures !Stranded(Run(c, slots, actions).value)
      {
        AttendedFrom(c, Booted(slots), actions);
      }
    } else {
      var actions := StrandingRun(c, slots);
      assert Stranded(Run(c, slots, actions).value);
    }
  }

  lemma {:induction false} RunCons(c: Config, s: System, a: Action, rest: seq<Action>)
    requires Inv(s) && HeadOk(s.q) && Do(c, s, a).Some?
    ensures Inv(Do(c, s, a).value)
    ensures RunFrom(c, s, [a] + rest) == RunFrom(c, Do(c, s, a).value, rest)
  {
    ActionKeepsInv(c, s, a);
    hide Inv, Do;
    assert ([a] + rest)[0] == a && ([a] + rest)[1..] == rest;
  }

  lemma {:induction false} RunAppend(c: Config, s: System, first: seq<Action>, second: seq<Action>)
    requires Inv(s) && RunFrom(c, s, first).Some?
    ensures RunFrom(c, s, first + second) == RunFrom(c, RunFrom(c, s, first).value, second)
    decreases |first|
  {
    if first == [] {
      assert first + second == second;
    } else {
      InvHead(s);
      ActionKeepsInv(c, s, first[0]);
      assert (first + second)[1..] == first[1..] + second;
      RunAppend(c, Do(c, s, first[0]).value, first[1..], second);
    }
  }

  lemma {:induction false} RunNone(c: Config, s: System)
    requires Inv(s)
    ensures RunFrom(c, s, []) == Some(s)
  {
  }

  /** A new request whose lookup finds nothing. */
  lemma {:induction false} AskStep(c: Config, s: System, pid: nat, job: Job) returns (s': System)
    requires Inv(s) && pid !in s.requesters
    ensures HeadOk(s.q) && Do(c, s, Ask(pid, job)) == Some(s')
    ensures Inv(s') && s' == s.(requesters := s.requesters[pid := Asking(job)])
  {
    InvHead(s);
    s' := s.(requesters := s.requesters[pid := Asking(job)]);
    ActionKeepsInv(c, s, Ask(pid, job));
  }

  lemma {:induction false} ScanStep(c: Config, s: System, pid: nat) returns (s': System)
    requires Inv(s) && !s.q.held && pid in s.requesters && s.requesters[pid].Asking?
    requires Abstract(s.q) == Fifo([], map[])
    ensures HeadOk(s.q) && Do(c, s, Scan(pid)) == Some(s')
    ensures Inv(s') && !s'.q.held && Abstract(s'.q) == Fifo([], map[]) && s'.q.Width() == s.q.Width()
    ensures s'.requesters == s.requesters[pid := Missing(s.requesters[pid].job)] && s'.workers == s.workers
  {
    InvHead(s);
    var job := s.requesters[pid].job;
    NoMatches(c, s, job.payload);
    ScanRefines(s.q, c.same, job.payload);
    ActionKeepsInv(c, s, Scan(pid));
    s' := Do(c, s, Scan(pid)).value;
  }

  ghost function Counted(c: Config, s: System, added: Payload, key: Payload): nat
    requires s.q.Shaped()
  {
    |Matches(s.q, c.same, key)| + if SameJob(c.same, added, key) then 1 else 0
  }

  ghost predicate AddedOne(c: Config, s: System, s': System, added: Payload)
    requires s.q.Shaped() && s'.q.Shaped()
  {
    forall key :: |Matches(s'.q, c.same, key)| == Counted(c, s, added, key)
  }

  lemma {:induction false} NoMatches(c: Config, s: System, key: Payload)
    requires Inv(s) && Abstract(s.q) == Fifo([], map[])
    ensures Matches(s.q, c.same, key) == {}
  {
    LineIsPopCount(s.q);
    forall i: nat | i < s.q.Width()
      ensures !s.q.Occupied(i)
    {
      assert i !in Members(s.q.waiting) && i !in Members(s.q.working);
    }
  }

  lemma {:induction false} InsertKeeps(c: Config, s: System, pid: nat) returns (s': System)
    requires Inv(s) && !s.q.held && pid in s.requesters && s.requesters[pid].Missing?
    requires |Abstract(s.q).line| + |Abstract(s.q).busy.Keys| < s.q.Width()
    ensures HeadOk(s.q) && Do(c, s, Insert(pid)) == Some(s')
    ensures Inv(s') && !s'.q.held && s'.q.Width() == s.q.Width() && NonZero(s'.q.waiting)
    ensures s'.requesters == s.requesters[pid := Added] && s'.workers == s.workers
    ensures s'.q == AddState(s.q, s.requesters[pid].job).0
    ensures Abstract(s'.q) == Abstract(s.q).(line := Abstract(s.q).line + [s.requesters[pid].job.payload])
  {
    hide Held, Valid, Threads, Order, Abstract, AddState;
    InvHead(s);
    LineIsPopCount(s.q);
    AddRefines(s.q, s.requesters[pid].job);
    s' := Do(c, s, Insert(pid)).value;
    ActionKeepsInv(c, s, Insert(pid));
    assert s'.q.waiting[s'.q.tail];
  }

  lemma {:induction false} InsertStep(c: Config, s: System, pid: nat) returns (s': System)
    requires Inv(s) && !s.q.held && pid in s.requesters && s.requesters[pid].Missing?
    requires |Abstract(s.q).line| + |Abstract(s.q).busy.Keys| < s.q.Width()
    ensures HeadOk(s.q) && Do(c, s, Insert(pid)) == Some(s')
    ensures Inv(s') && !s'.q.held && s'.q.Width() == s.q.Width() && NonZero(s'.q.waiting)
    ensures s'.requesters == s.requesters[pid := Added] && s'.workers == s.workers
    ensures Abstract(s'.q) == Abstract(s.q).(line := Abstract(s.q).line + [s.requesters[pid].job.payload])
    ensures AddedOne(c, s, s', s.requesters[pid].job.payload)
  {
    InvHead(s);
    s' := InsertKeeps(c, s, pid);
    var job := s.requesters[pid].job;
    LineIsPopCount(s.q);
    AddRefines(s.q, job);
    hide Inv, Do, Valid, AddState, Matches, Order, Abstract;
    forall key
      ensures |Matches(s'.q, c.same, key)| == Counted(c, s, job.payload, key)
    {
      QueueRuns.AddMatches(c.same, s.q, job, key);
    }
  }

  /** With the counter at its limit, the first request of all is stranded. */
  lemma {:induction false} StrandingRun(c: Config, slots: seq<Job>) returns (actions: seq<Action>)
    requires slots != [] && c.numDecodingThreads >= 4
    ensures Run(c, slots, actions).Some? && Stranded(Run(c, slots, actions).value)
  {
    BootedInv(slots);
    InitialValid(slots);
    hide Held, RunFrom, Matches, Threads;
    var s0, job := Booted(slots), slots[0];
    var s1 := AskStep(c, s0, 0, job);
    var s2 := ScanStep(c, s1, 0);
    var s3 := InsertStep(c, s2, 0);
    InvHead(s3);
    var s4 := s3.(requesters := s3.requesters[0 := Done]);
    assert Do(c, s3, Spawn(0, 0)) == Some(s4);
    actions := [Ask(0, job)] + ([Scan(0)] + ([Insert(0)] + ([Spawn(0, 0)] + [])));
    hide Do;
    RunCons(c, s0, Ask(0, job), [Scan(0)] + ([Insert(0)] + ([Spawn(0, 0)] + [])));
    RunCons(c, s1, Scan(0), [Insert(0)] + ([Spawn(0, 0)] + []));
    RunCons(c, s2, Insert(0), [Spawn(0, 0)] + []);
    RunCons(c, s3, Spawn(0, 0), []);
    RunNone(c, s4);
  }

  // ------------------------------------------------------------ duplicates

  /** The lookup and the add are separate critical sections: two requests for one job that
      both look it up before either adds it put it into the queue twice. */
  lemma {:induction false} LookupThenAddIsNotAtomic(c: Config, slots: seq<Job>, job: Job) returns (actions: seq<Action>)
    requires |slots| >= 2 && Equivalence(c.same)
    ensures Run(c, slots, actions).Some?
    ensures Inv(Run(c, slots, actions).value)
    ensures |Matches(Run(c, slots, actions).value.q, c.same, job.payload)| == 2
  {
    BootedInv(slots);
    hide Held, Threads, Do, RunFrom, Matches;
    var first, s4 := BothMissing(c, slots, job);
    var s5 := InsertStep(c, s4, 0);
    var s6 := InsertStep(c, s5, 1);
    NoMatches(c, s4, job.payload);
    assert |Matches(s5.q, c.same, job.payload)| == 1 && |Matches(s6.q, c.same, job.payload)| == 2;
    var second := [Insert(0)] + ([Insert(1)] + []);
    RunCons(c, s4, Insert(0), [Insert(1)] + []);
    RunCons(c, s5, Insert(1), []);
    RunNone(c, s6);
    RunAppend(c, Booted(slots), first, second);
    actions := first + second;
  }

  lemma {:induction false} BothMissing(c: Config, slots: seq<Job>, job: Job) returns (actions: seq<Action>, s: System)
    requires |slots| >= 2
    ensures Run(c, slots, actions) == Some(s)
    ensures Inv(s) && !s.q.held && s.q.Width() == |slots| && Abstract(s.q) == Fifo([], map[])
    ensures s.requesters == map[0 := Missing(job), 1 := Missing(job)]
  {
    BootedInv(slots);
    InitialValid(slots);
    hide Held, Do, RunFrom, Matches, Threads;
    var s0 := Booted(slots);
    var s1 := AskStep(c, s0, 0, job);
    var s2 := AskStep(c, s1, 1, job);
    var s3 := ScanStep(c, s2, 0);
    s := ScanStep(c, s3, 1);
    var r3 := [Scan(0)] + ([Scan(1)] + []);
    var r2 := [Ask(1, job)] + r3;
    actions := [Ask(0, job)] + r2;
    RunCons(c, s0, Ask(0, job), r2);
    RunCons(c, s1, Ask(1, job), r3);
    RunCons(c, s2, Scan(0), [Scan(1)] + []);
    RunCons(c, s3, Scan(1), []);
    RunNone(c, s);
  }

  // ------------------------------------------------------------ progress

  /** While the queue is attended and the lock is free, the front job can be handed out
      within three steps of requesters and workers already there. */
  lemma {:induction false} FrontJobCanBeServed(c: Config, s: System) returns (actions: seq<Action>, wid: nat)
    requires Inv(s) && !s.q.held && NonZero(s.q.waiting) && Attended(s)
    requires c.numDecodingThreads < 4
    ensures |actions| <= 3 && forall a | a in actions :: !a.Ask? && !a.Scan? && !a.Insert?
    ensures Served(s, RunFrom(c, s, actions), wid)
  {
    if w :| w in s.workers && !s.workers[w].Leaving? {
      wid := w;
      actions := ServeFrom(c, s, w);
    } else {
      var pid :| pid in s.requesters && s.requesters[pid].Added?;
      wid := FreshKey(s.workers);
      InvHead(s);
      var s1 := Do(c, s, Spawn(pid, wid)).value;
      ActionKeepsInv(c, s, Spawn(pid, wid));
      var rest := ServeFrom(c, s1, wid);
      actions := [Spawn(pid, wid)] + rest;
      RunCons(c, s, Spawn(pid, wid), rest);
    }
  }

  lemma {:induction false} FreshKey(m: map<nat, Worker>) returns (k: nat)
    ensures k !in m
  {
    k := 0;
    var below: set<nat> := {};
    while k in m
      invariant below <= m.Keys && |below| == k
      invariant forall i | i in below :: i < k
      decreases |m.Keys - below|
    {
      QueueRuns.SubsetCard(m.Keys - below - {k}, m.Keys - below);
      assert k in m.Keys - below;
      assert m.Keys - (below + {k}) == m.Keys - below - {k};
      below := below + {k};
      k := k + 1;
    }
  }

  /** Steps before the worker's next get. */
  function Distance(w: Worker): nat {
    match w
    case Got(_, _) => 2
    case Encoding(_, _, _) => 1
    case Spawned => 1
    case _ => 0
  }

  /** One step brings a busy or new worker nearer to its next get and leaves the line alone. */
  lemma {:induction false} Approach(c: Config, s: System, wid: nat) returns (a: Action)
    requires Inv(s) && !s.q.held && wid in s.workers && Distance(s.workers[wid]) > 0
    ensures HeadOk(s.q) && Do(c, s, a).Some? && !a.Ask? && !a.Scan? && !a.Insert?
    ensures var s' := Do(c, s, a).value;
      && Inv(s') && !s'.q.held && wid in s'.workers && !s'.workers[wid].Leaving?
      && Distance(s'.workers[wid]) == Distance(s.workers[wid]) - 1
      && s'.q.waiting == s.q.waiting && Abstract(s'.q).line == Abstract(s.q).line
  {
    InvHead(s);
    match s.workers[wid] {
      case Spawned => a := Start(wid);
      case Got(_, _) => a := ReadIndex(wid);
      case Encoding(_, _, index) =>
        a := Finish(wid);
        ReleaseRefines(s.q, index);
    }
    ActionKeepsInv(c, s, a);
  }

  lemma {:induction false} ServeFetch(c: Config, s: System, wid: nat)
    requires Inv(s) && !s.q.held && NonZero(s.q.waiting)
    requires wid in s.workers && s.workers[wid].Fetching?
    ensures Served(s, RunFrom(c, s, [Fetch(wid)]), wid)
  {
    InvHead(s);
    GetRefines(s.q);
    FetchKeepsInv(c, s, wid);
    RunOne(c, s, Fetch(wid));
    hide Inv, Valid, Held, Abstract, RunFrom;
  }

  /** The front job of s was handed to worker wid. */
  ghost predicate Served(s: System, r: Option<System>, wid: nat)
    requires Inv(s) && (r.Some? ==> Inv(r.value))
  {
    && r.Some? && Abstract(s.q).line != []
    && Abstract(r.value.q).line == Abstract(s.q).line[1..]
    && wid in r.value.workers && r.value.workers[wid].Got?
    && r.value.workers[wid].job == Abstract(s.q).line[0]
  }

  /** A worker that has not seen the queue empty takes the front job in at most three steps. */
  lemma {:induction false} ServeFrom(c: Config, s: System, wid: nat) returns (actions: seq<Action>)
    requires Inv(s) && !s.q.held && NonZero(s.q.waiting)
    requires wid in s.workers && !s.workers[wid].Leaving?
    ensures |actions| <= 1 + Distance(s.workers[wid])
    ensures forall a | a in actions :: !a.Ask? && !a.Scan? && !a.Insert?
    ensures Served(s, RunFrom(c, s, actions), wid)
    decreases Distance(s.workers[wid])
  {
    if s.workers[wid].Fetching? {
      ServeFetch(c, s, wid);
      actions := [Fetch(wid)];
    } else {
      var a := Approach(c, s, wid);
      var s' := Do(c, s, a).value;
      hide Inv, Do, RunFrom, Abstract;
      var rest := ServeFrom(c, s', wid);
      RunCons(c, s, a, rest);
      actions := [a] + rest;
    }
  }

  lemma {:induction false} RunOne(c: Config, s: System, a: Action)
    requires Inv(s) && HeadOk(s.q) && Do(c, s, a).Some?
    ensures Inv(Do(c, s, a).value) && RunFrom(c, s, [a]) == Do(c, s, a)
  {
    RunCons(c, s, a, []);
    RunNone(c, Do(c, s, a).value);
    assert [a] + [] == [a];
  }
}
