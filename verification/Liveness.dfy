/** Under every schedule the requests and encoder threads come to rest, and then no job is
    left waiting. */
module Liveness {
  import opened Options
  import opened Masks
  import opened DecodingQueue
  import opened Transcoder

  // ------------------------------------------------------------ sums over processes

  ghost function Pick<V>(m: map<nat, V>): (k: nat)
    requires m != map[]
    ensures k in m
  {
    assert m.Keys != {};
    var k :| k in m;
    k
  }

  ghost function Total<V>(m: map<nat, V>, work: V -> nat): nat
    decreases |m|
  {
    if m == map[] then 0 else work(m[Pick(m)]) + Total(m - {Pick(m)}, work)
  }

  lemma {:induction false} TotalWithout<V>(m: map<nat, V>, work: V -> nat, k: nat)
    requires k in m
    ensures Total(m, work) == work(m[k]) + Total(m - {k}, work)
    decreases |m|
  {
    var j := Pick(m);
    if j != k {
      TotalWithout(m - {j}, work, k);
      TotalWithout(m - {k}, work, j);
      assert m - {j} - {k} == m - {k} - {j};
    }
  }

  lemma {:induction false} TotalSet<V>(m: map<nat, V>, work: V -> nat, k: nat, v: V)
    ensures Total(m[k := v], work) == work(v) + Total(m - {k}, work)
    ensures k in m ==> Total(m[k := v], work) + work(m[k]) == Total(m, work) + work(v)
    ensures k !in m ==> Total(m[k := v], work) == Total(m, work) + work(v)
  {
    TotalWithout(m[k := v], work, k);
    assert m[k := v] - {k} == m - {k};
    if k in m {
      TotalWithout(m, work, k);
    } else {
      assert m - {k} == m;
    }
  }

  // ------------------------------------------------------------ work still to be done

  /** At most so many actions follow from a request, the waiting job it adds and the thread it
      starts included. */
  function RequesterWork(r: Requester): nat {
    match r
    case Asking(_) => 9
    case Missing(_) => 8
    case Added => 4
    case Done => 0
  }

  function WorkerWork(w: Worker): nat {
    match w
    case Spawned => 3
    case Fetching => 2
    case Got(_, _) => 4
    case Encoding(_, _, _) => 3
    case Leaving => 1
  }

  ghost function Work(s: System): nat {
    3 * |Members(s.q.waiting)| + Total(s.requesters, RequesterWork) + Total(s.workers, WorkerWork)
  }

  lemma {:induction false} RequesterStep(c: Config, s: System, a: Action)
    requires Inv(s) && HeadOk(s.q) && Do(c, s, a).Some? && (a.Scan? || a.Insert? || a.Spawn?)
    ensures Work(Do(c, s, a).value) < Work(s)
  {
    hide Valid, Held, Total, AddState, GetState, Matches, Matching;
    var s' := Do(c, s, a).value;
    assert a.pid in s'.requesters && s'.requesters == s.requesters[a.pid := s'.requesters[a.pid]];
    TotalSet(s.requesters, RequesterWork, a.pid, s'.requesters[a.pid]);
    match a
    case Scan(pid) =>
    case Insert(pid) => InsertCount(s.q, s.requesters[pid].job);
    case Spawn(pid, wid) => TotalSet(s.workers, WorkerWork, wid, Spawned);
  }

  lemma {:induction false} InsertCount(q: QueueState, job: Job)
    requires Valid(q)
    ensures var (q', status) := AddState(q, job);
      && (status == 0 ==> |Members(q'.waiting)| == |Members(q.waiting)| + 1)
      && (status != 0 ==> q'.waiting == q.waiting)
  {
    AddRefines(q, job);
    var (q', status) := AddState(q, job);
    if status == 0 {
      hide Valid, AddState, Threads, Order;
      SetAndClear(q.waiting, q'.tail);
      assert q'.tail !in Members(q.waiting);
    }
  }

  lemma {:induction false} FetchCount(q: QueueState)
    requires Valid(q)
    ensures NonZero(q.waiting) ==> 0 <= q.head < q.Width()
    ensures var (q', slot) := GetState(q);
      && (slot.Some? <==> NonZero(q.waiting))
      && (slot.Some? ==> |Members(q'.waiting)| + 1 == |Members(q.waiting)|)
      && (slot.None? ==> q' == q)
  {
    GetRefines(q);
    var (q', slot) := GetState(q);
    if slot.Some? {
      hide Valid, Threads, Order;
      SetAndClear(q.waiting, slot.value);
      assert slot.value in Members(q.waiting);
    }
  }

  lemma {:induction false} WorkerStep(c: Config, s: System, a: Action)
    requires HeadOk(s.q) && Do(c, s, a).Some? && (a.Start? || a.ReadIndex? || a.Finish?)
    ensures Work(Do(c, s, a).value) < Work(s)
  {
    hide Total, AddState, GetState, ScanState, Matches, And, Not, Flag;
    var s' := Do(c, s, a).value;
    assert a.wid in s.workers && s'.workers == s.workers[a.wid := s'.workers[a.wid]];
    TotalSet(s.workers, WorkerWork, a.wid, s'.workers[a.wid]);
  }

  lemma {:induction false} FetchStep(c: Config, s: System, wid: nat)
    requires Inv(s) && HeadOk(s.q) && Do(c, s, Fetch(wid)).Some?
    ensures Work(Do(c, s, Fetch(wid)).value) < Work(s)
  {
    hide Valid, Held, Total, AddState, ScanState, Matches;
    var s' := Do(c, s, Fetch(wid)).value;
    FetchCount(s.q);
    assert s'.q == GetState(s.q).0 && s'.requesters == s.requesters && wid in s.workers;
    assert s'.workers == s.workers[wid := s'.workers[wid]] && s.workers[wid].Fetching?;
    assert if NonZero(s.q.waiting) then s'.workers[wid].Got? else s'.workers[wid].Leaving?;
    hide Inv, Do, GetState, HeadOk;
    TotalSet(s.workers, WorkerWork, wid, s'.workers[wid]);
  }

  /** Every action but a new request lowers the work still to be done; a request adds nine. */
  lemma {:induction false} ActionLowersWork(c: Config, s: System, a: Action)
    requires Inv(s) && HeadOk(s.q) && Do(c, s, a).Some?
    ensures !a.Ask? ==> Work(Do(c, s, a).value) < Work(s)
    ensures a.Ask? ==> Work(Do(c, s, a).value) == Work(s) + 9
  {
    if a.Ask? {
      TotalSet(s.requesters, RequesterWork, a.pid, Asking(a.job));
    } else if a.Leave? {
      TotalWithout(s.workers, WorkerWork, a.wid);
    } else if a.Scan? || a.Insert? || a.Spawn? {
      RequesterStep(c, s, a);
    } else if a.Fetch? {
      FetchStep(c, s, a.wid);
    } else {
      WorkerStep(c, s, a);
    }
  }

  // ------------------------------------------------------------ every run comes to rest

  function Requests(actions: seq<Action>): nat {
    if actions == [] then 0 else (if actions[0].Ask? then 1 else 0) + Requests(actions[1..])
  }

  lemma {:induction false} WorkOverRun(c: Config, s: System, actions: seq<Action>)
    requires Inv(s) && RunFrom(c, s, actions).Some?
    ensures |actions| + Work(RunFrom(c, s, actions).value) <= 10 * Requests(actions) + Work(s)
    decreases |actions|
  {
    if actions != [] {
      InvHead(s);
      ActionKeepsInv(c, s, actions[0]);
      ActionLowersWork(c, s, actions[0]);
      hide Inv, Do, Work;
      WorkOverRun(c, Do(c, s, actions[0]).value, actions[1..]);
    }
  }

  /** Only a new request could act. */
  ghost predicate AtRest(c: Config, s: System)
    requires HeadOk(s.q)
  {
    forall a: Action :: Do(c, s, a).Some? ==> a.Ask?
  }

  /** A thread can always act while the lock is free. */
  lemma {:induction false} WorkerCanAct(c: Config, s: System, wid: nat) returns (a: Action)
    requires Inv(s) && HeadOk(s.q) && !s.q.held && wid in s.workers
    ensures !a.Ask? && Do(c, s, a).Some?
  {
    a :=
      match s.workers[wid]
      case Spawned => Start(wid)
      case Fetching => Fetch(wid)
      case Got(_, _) => ReadIndex(wid)
      case Encoding(_, _, _) => Finish(wid)
      case Leaving => Leave(wid);
  }

  /** So can a request that is not done. */
  lemma {:induction false} RequesterCanAct(c: Config, s: System, pid: nat) returns (a: Action)
    requires Inv(s) && HeadOk(s.q) && !s.q.held && pid in s.requesters && !s.requesters[pid].Done?
    ensures !a.Ask? && Do(c, s, a).Some?
  {
    var wid := FreshKey(s.workers);
    var r := s.requesters[pid];
    a := if r.Asking? then Scan(pid) else if r.Missing? then Insert(pid) else Spawn(pid, wid);
  }

  lemma {:induction false} RestHasNone(c: Config, s: System)
    requires Inv(s) && HeadOk(s.q) && !s.q.held && AtRest(c, s)
    ensures s.workers == map[] && forall pid | pid in s.requesters :: s.requesters[pid].Done?
  {
    hide Inv, Do, HeadOk;
    if w :| w in s.workers {
      var a := WorkerCanAct(c, s, w);
      assert false;
    } else if pid :| pid in s.requesters && !s.requesters[pid].Done? {
      var a := RequesterCanAct(c, s, pid);
      assert false;
    }
  }

  /** While the spawn test passes, every run of n requests under every schedule has at most 10 n
      actions, and where it ends with the lock free and nothing but new requests possible, every
      request is done, every thread has left, and no job is waiting or being worked on. */
  lemma {:induction false} EveryScheduleServesAll(c: Config, slots: seq<Job>, actions: seq<Action>)
    requires c.numDecodingThreads < 4 && Run(c, slots, actions).Some?
    ensures |actions| <= 10 * Requests(actions)
    ensures var s := Run(c, slots, actions).value;
      && HeadOk(s.q)
      && (!s.q.held && AtRest(c, s) ==>
            && s.workers == map[] && (forall pid | pid in s.requesters :: s.requesters[pid].Done?)
            && Abstract(s.q) == Fifo([], map[]))
  {
    var s := Run(c, slots, actions).value;
    BootedWork(slots);
    WorkOverRun(c, Booted(slots), actions);
    AttendedFrom(c, Booted(slots), actions);
    InvHead(s);
    if !s.q.held && AtRest(c, s) {
      RestHasNone(c, s);
      RestIsEmpty(s);
    }
  }

  lemma {:induction false} BootedWork(slots: seq<Job>)
    ensures Inv(Booted(slots)) && !Stranded(Booted(slots)) && Work(Booted(slots)) == 0
  {
    BootedInv(slots);
    assert Members(Booted(slots).q.waiting) == {};
  }

  lemma {:induction false} RestIsEmpty(s: System)
    requires Inv(s) && !Stranded(s) && s.workers == map[]
    requires forall pid | pid in s.requesters :: s.requesters[pid].Done?
    ensures Abstract(s.q) == Fifo([], map[])
  {
    LineIsPopCount(s.q);
    assert !NonZero(s.q.waiting);
    assert Members(s.q.waiting) == {};
    assert Members(s.q.working) == {};
  }
}
