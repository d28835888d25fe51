/** What a request does depends on what its lookup met: over whole runs, which requests add their
    job, which start a thread, and when no job enters the queue twice. */
module Lookups {
  import opened Options
  import opened DecodingQueue
  import opened Transcoder
  import opened Duplicates
  import QueueRuns

  /** No job waiting or being worked on has this source and output type. */
  ghost predicate NoneLike(c: Config, q: QueueState, key: Payload)
    requires q.Shaped()
  {
    forall i: nat | i < q.Width() && (q.waiting[i] || q.working[i]) ::
      !(c.same(q.decoding[i].payload.sourceId, key.sourceId)
        && c.same(q.decoding[i].payload.outputFileType, key.outputFileType))
  }

  ghost predicate HasRoom(q: QueueState)
    requires q.Shaped()
  {
    exists i: nat :: i < q.Width() && !q.waiting[i] && !q.working[i]
  }

  predicate Is(s: System, pid: nat, r: Requester) {
    pid in s.requesters && s.requesters[pid] == r
  }

  lemma {:induction false} NoneLikeIsNoMatch(c: Config, q: QueueState, key: Payload)
    requires q.Shaped()
    ensures NoneLike(c, q, key) <==> |Matches(q, c.same, key)| == 0
  {
    if i: nat :| i < q.Width() && q.Occupied(i) && SameJob(c.same, q.decoding[i].payload, key) {
      assert i in Matches(q, c.same, key);
    } else {
      assert Matches(q, c.same, key) == {};
    }
  }

  lemma {:induction false} AddedIfRoom(q: QueueState, job: Job)
    requires q.Shaped()
    ensures AddState(q, job).1 == 0 <==> HasRoom(q)
  {
    AddSlots(q, job);
    hide AddState;
    if i: nat :| i < q.Width() && !q.waiting[i] && !q.working[i] {
      assert !q.Occupied(i);
    }
  }

  // ------------------------------------------------------------ one action

  /** A request comes to its add exactly by a lookup that met nothing. */
  lemma {:induction false} ComesToMissing(c: Config, s: System, a: Action, pid: nat, job: Job)
    requires HeadOk(s.q) && Do(c, s, a).Some?
    ensures Is(Do(c, s, a).value, pid, Missing(job)) <==>
      || (Is(s, pid, Missing(job)) && a != Insert(pid))
      || (a == Scan(pid) && Is(s, pid, Asking(job)) && NoneLike(c, s.q, job.payload))
  {
    if a == Scan(pid) {
      NoneLikeIsNoMatch(c, s.q, s.requesters[pid].job.payload);
    }
    hide NoneLike, Matches, HeadOk, ScanState, AddState, GetState, ReleaseState;
  }

  /** It comes to start a thread exactly by an add for which there was room. */
  lemma {:induction false} ComesToAdded(c: Config, s: System, a: Action, pid: nat)
    requires HeadOk(s.q) && Do(c, s, a).Some?
    ensures Is(Do(c, s, a).value, pid, Requester.Added) <==>
      || (Is(s, pid, Requester.Added) && !(a.Spawn? && a.pid == pid))
      || (a == Insert(pid) && HasRoom(s.q))
  {
    if a == Insert(pid) {
      AddedIfRoom(s.q, s.requesters[pid].job);
    }
    hide HasRoom, Matches, HeadOk, ScanState, AddState, GetState, ReleaseState;
  }

  // ------------------------------------------------------------ whole runs

  /** Step k of the run is the lookup of request pid, for this job, and meets nothing. */
  ghost predicate FoundNothing(c: Config, s: System, actions: seq<Action>, k: nat, pid: nat, job: Job)
    requires Inv(s) && RunFrom(c, s, actions).Some? && k < |actions|
  {
    && actions[k] == Scan(pid) && Is(After(c, s, actions, k), pid, Asking(job))
    && NoneLike(c, After(c, s, actions, k).q, job.payload)
  }

  ghost predicate NotAmong(actions: seq<Action>, k: nat, n: nat, a: Action) {
    forall m :: k < m < n && m < |actions| ==> actions[m] != a
  }

  lemma {:induction false} MissingNext(c: Config, s: System, actions: seq<Action>, n: nat, pid: nat, job: Job)
    requires Inv(s) && RunFrom(c, s, actions).Some? && n < |actions|
    ensures Is(After(c, s, actions, n + 1), pid, Missing(job)) <==>
      || (Is(After(c, s, actions, n), pid, Missing(job)) && actions[n] != Insert(pid))
      || FoundNothing(c, s, actions, n, pid, job)
  {
    AfterNext(c, s, actions, n);
    hide Inv, RunFrom, Do, NoneLike, After, Is;
    ComesToMissing(c, After(c, s, actions, n), actions[n], pid, job);
  }

  lemma {:induction false} MissingSince(c: Config, s: System, actions: seq<Action>, n: nat, pid: nat, job: Job)
      returns (k: nat)
    requires Inv(s) && RunFrom(c, s, actions).Some? && n <= |actions| && s.requesters == map[]
    requires Is(After(c, s, actions, n), pid, Missing(job))
    ensures k < n && FoundNothing(c, s, actions, k, pid, job) && NotAmong(actions, k, n, Insert(pid))
  {
    hide *;
    NotAtStart(c, s, actions, pid);
    if n > 0 {
      AmongNext(actions, n - 1, Insert(pid));
      MissingNext(c, s, actions, n - 1, pid, job);
      if FoundNothing(c, s, actions, n - 1, pid, job) {
        k := n - 1;
      } else {
        k := MissingSince(c, s, actions, n - 1, pid, job);
      }
    }
  }

  lemma {:induction false} AfterNone(c: Config, s: System, actions: seq<Action>)
    requires Inv(s) && RunFrom(c, s, actions).Some?
    ensures After(c, s, actions, 0) == s
  {
    hide Inv, RunFrom;
  }

  lemma {:induction false} NotAtStart(c: Config, s: System, actions: seq<Action>, pid: nat)
    requires Inv(s) && RunFrom(c, s, actions).Some? && s.requesters == map[]
    ensures forall r :: !Is(After(c, s, actions, 0), pid, r)
  {
    hide Inv, RunFrom;
  }

  lemma {:induction false} AmongNext(actions: seq<Action>, n: nat, a: Action)
    requires n < |actions|
    ensures NotAmong(actions, n, n + 1, a)
    ensures actions[n] != a ==> forall k: nat :: NotAmong(actions, k, n, a) ==> NotAmong(actions, k, n + 1, a)
  {
  }

  lemma {:induction false} MissingStill(c: Config, s: System, actions: seq<Action>, k: nat, n: nat, pid: nat, job: Job)
    requires Inv(s) && RunFrom(c, s, actions).Some? && k < n <= |actions|
    requires FoundNothing(c, s, actions, k, pid, job) && NotAmong(actions, k, n, Insert(pid))
    ensures Is(After(c, s, actions, n), pid, Missing(job))
  {
    hide Inv, RunFrom, After, FoundNothing, Is;
    MissingNext(c, s, actions, n - 1, pid, job);
    if k < n - 1 {
      MissingStill(c, s, actions, k, n - 1, pid, job);
    }
  }

  ghost predicate PastLookup(s: System, pid: nat) {
    pid in s.requesters && !s.requesters[pid].Asking?
  }

  lemma {:induction false} LookupPasses(c: Config, s: System, a: Action, pid: nat)
    requires HeadOk(s.q) && Do(c, s, a).Some?
    ensures PastLookup(s, pid) || a == Scan(pid) ==> PastLookup(Do(c, s, a).value, pid)
    ensures a == Scan(pid) ==> !PastLookup(s, pid)
  {
    hide Matches, HeadOk, ScanState, AddState, GetState, ReleaseState;
  }

  lemma {:induction false} NoLongerAsking(c: Config, s: System, actions: seq<Action>, k: nat, n: nat, pid: nat)
    requires Inv(s) && RunFrom(c, s, actions).Some? && k < n <= |actions| && actions[k] == Scan(pid)
    ensures PastLookup(After(c, s, actions, n), pid)
  {
    hide *;
    AfterNext(c, s, actions, n - 1);
    LookupPasses(c, After(c, s, actions, n - 1), actions[n - 1], pid);
    if k < n - 1 {
      NoLongerAsking(c, s, actions, k, n - 1, pid);
    }
  }

  /** A request looks its job up once. */
  lemma {:induction false} OneLookup(c: Config, s: System, actions: seq<Action>, k: nat, n: nat, pid: nat)
    requires Inv(s) && RunFrom(c, s, actions).Some? && k < n < |actions|
    requires actions[k] == Scan(pid)
    ensures actions[n] != Scan(pid)
  {
    hide *;
    NoLongerAsking(c, s, actions, k, n, pid);
    AfterNext(c, s, actions, n);
    LookupPasses(c, After(c, s, actions, n), actions[n], pid);
  }

  /** One action more. */
  lemma {:induction false} RunMore(c: Config, s: System, actions: seq<Action>, a: Action)
    requires Inv(s) && RunFrom(c, s, actions).Some?
    ensures After(c, s, actions, |actions|) == RunFrom(c, s, actions).value && HeadOk(RunFrom(c, s, actions).value.q)
    ensures RunFrom(c, s, actions + [a]) == Do(c, RunFrom(c, s, actions).value, a)
  {
    AfterIsRun(c, s, actions, |actions|);
    assert actions[..|actions|] == actions;
    var t := RunFrom(c, s, actions).value;
    RunAppend(c, s, actions, [a]);
    InvHead(t);
    hide Inv, Do;
    if Do(c, t, a).Some? {
      RunOne(c, t, a);
    } else {
      assert RunFrom(c, t, [a]) == None;
    }
  }

  /** A request adds its job exactly when the lock is free and its lookup has met no job with the
      same source and output type; and it adds it once. */
  lemma {:induction false} AddsExactlyAfterEmptyLookup(c: Config, slots: seq<Job>, actions: seq<Action>, pid: nat)
    requires Run(c, slots, actions).Some?
    ensures Inv(Booted(slots)) && RunFrom(c, Booted(slots), actions).Some?
    ensures Run(c, slots, actions + [Insert(pid)]).Some? <==>
      && !Run(c, slots, actions).value.q.held
      && exists k: nat, job: Job :: k < |actions| && FoundNothing(c, Booted(slots), actions, k, pid, job)
                                    && NotAmong(actions, k, |actions|, Insert(pid))
  {
    BootedInv(slots);
    var s, n := Booted(slots), |actions|;
    RunMore(c, s, actions, Insert(pid));
    var t := RunFrom(c, s, actions).value;
    assert s.requesters == map[];
    hide Inv, RunFrom, After, FoundNothing, NotAmong, Booted;
    if !t.q.held && pid in t.requesters && t.requesters[pid].Missing? {
      var k := MissingSince(c, s, actions, n, pid, t.requesters[pid].job);
    }
    if k: nat, job: Job :| k < n && FoundNothing(c, s, actions, k, pid, job) && NotAmong(actions, k, n, Insert(pid)) {
      MissingStill(c, s, actions, k, n, pid, job);
    }
  }

  lemma {:induction false} AddFollowsLookup(c: Config, s: System, actions: seq<Action>, n: nat, pid: nat)
      returns (k: nat, job: Job)
    requires Inv(s) && RunFrom(c, s, actions).Some? && n < |actions| && s.requesters == map[]
    requires actions[n] == Insert(pid)
    ensures Is(After(c, s, actions, n), pid, Missing(job))
    ensures k < n && FoundNothing(c, s, actions, k, pid, job) && NotAmong(actions, k, n, Insert(pid))
  {
    AfterNext(c, s, actions, n);
    var t := After(c, s, actions, n);
    hide Inv, RunFrom, After, FoundNothing, NotAmong;
    assert Do(c, t, Insert(pid)).Some?;
    job := t.requesters[pid].job;
    k := MissingSince(c, s, actions, n, pid, job);
  }

  lemma {:induction false} ThreadFollowsAdd(c: Config, s: System, actions: seq<Action>, n: nat, pid: nat)
      returns (k: nat)
    requires Inv(s) && RunFrom(c, s, actions).Some? && n <= |actions| && s.requesters == map[]
    requires Is(After(c, s, actions, n), pid, Requester.Added)
    ensures k < n && FoundRoom(c, s, actions, k, pid) && NoThread(actions, k, n, pid)
  {
    hide *;
    NotAtStart(c, s, actions, pid);
    if n > 0 {
      ThreadNext(actions, n - 1, pid);
      AddedNext(c, s, actions, n - 1, pid);
      if FoundRoom(c, s, actions, n - 1, pid) {
        k := n - 1;
      } else {
        k := ThreadFollowsAdd(c, s, actions, n - 1, pid);
      }
    }
  }

  lemma {:induction false} ThreadNext(actions: seq<Action>, n: nat, pid: nat)
    requires n < |actions|
    ensures NoThread(actions, n, n + 1, pid)
    ensures !(actions[n].Spawn? && actions[n].pid == pid) ==>
      forall k: nat :: NoThread(actions, k, n, pid) ==> NoThread(actions, k, n + 1, pid)
  {
  }

  lemma {:induction false} AddedNext(c: Config, s: System, actions: seq<Action>, n: nat, pid: nat)
    requires Inv(s) && RunFrom(c, s, actions).Some? && n < |actions|
    ensures Is(After(c, s, actions, n + 1), pid, Requester.Added) <==>
      || (Is(After(c, s, actions, n), pid, Requester.Added) && !(actions[n].Spawn? && actions[n].pid == pid))
      || FoundRoom(c, s, actions, n, pid)
  {
    AfterNext(c, s, actions, n);
    hide Inv, RunFrom, Do, HasRoom, After, Is;
    ComesToAdded(c, After(c, s, actions, n), actions[n], pid);
  }

  /** Step k of the run is the add of request pid, and there is room. */
  ghost predicate FoundRoom(c: Config, s: System, actions: seq<Action>, k: nat, pid: nat)
    requires Inv(s) && RunFrom(c, s, actions).Some? && k < |actions|
  {
    actions[k] == Insert(pid) && HasRoom(After(c, s, actions, k).q)
  }

  ghost predicate NoThread(actions: seq<Action>, k: nat, n: nat, pid: nat) {
    forall m :: k < m < n && m < |actions| ==> !(actions[m].Spawn? && actions[m].pid == pid)
  }

  lemma {:induction false} AddedStill(c: Config, s: System, actions: seq<Action>, k: nat, n: nat, pid: nat)
    requires Inv(s) && RunFrom(c, s, actions).Some? && k < n <= |actions|
    requires FoundRoom(c, s, actions, k, pid) && NoThread(actions, k, n, pid)
    ensures Is(After(c, s, actions, n), pid, Requester.Added)
  {
    hide Inv, RunFrom, After, FoundRoom, Is;
    AddedNext(c, s, actions, n - 1, pid);
    if k < n - 1 {
      AddedStill(c, s, actions, k, n - 1, pid);
    }
  }

  /** A request starts a thread exactly when it has added its job to a queue with room, and then
      once; the thread comes into being exactly when the counter is below four. */
  lemma {:induction false} StartsExactlyAfterAdd(c: Config, slots: seq<Job>, actions: seq<Action>, pid: nat, wid: nat)
    requires Run(c, slots, actions).Some?
    ensures Inv(Booted(slots)) && RunFrom(c, Booted(slots), actions).Some?
    ensures var s, r := Run(c, slots, actions).value, Run(c, slots, actions + [Spawn(pid, wid)]);
      && (r.Some? <==>
            && wid !in s.workers
            && exists k: nat :: k < |actions| && FoundRoom(c, Booted(slots), actions, k, pid)
                                && NoThread(actions, k, |actions|, pid))
      && (r.Some? ==> r.value.q == s.q
                      && r.value.workers == if c.numDecodingThreads < 4 then s.workers[wid := Spawned] else s.workers)
  {
    BootedInv(slots);
    var s, n := Booted(slots), |actions|;
    RunMore(c, s, actions, Spawn(pid, wid));
    var t := RunFrom(c, s, actions).value;
    assert s.requesters == map[];
    SpawnDone(c, t, pid, wid);
    hide Inv, RunFrom, After, Do, FoundRoom, NoThread, Booted;
    if Is(t, pid, Requester.Added) {
      var k := ThreadFollowsAdd(c, s, actions, n, pid);
    }
    if k: nat :| k < n && FoundRoom(c, s, actions, k, pid) && NoThread(actions, k, n, pid) {
      AddedStill(c, s, actions, k, n, pid);
    }
  }

  lemma {:induction false} SpawnDone(c: Config, s: System, pid: nat, wid: nat)
    requires HeadOk(s.q)
    ensures var r := Do(c, s, Spawn(pid, wid));
      && (r.Some? <==> wid !in s.workers && Is(s, pid, Requester.Added))
      && (r.Some? ==> r.value.q == s.q
                      && r.value.workers == if c.numDecodingThreads < 4 then s.workers[wid := Spawned] else s.workers)
  {
  }

  /** A request whose lookup met its job neither adds it nor starts a thread, at any step. */
  lemma {:induction false} FoundNeverAdds(c: Config, slots: seq<Job>, actions: seq<Action>, k: nat, n: nat, pid: nat)
    requires Run(c, slots, actions).Some? && k < |actions| && n < |actions|
    requires Inv(Booted(slots)) && RunFrom(c, Booted(slots), actions).Some?
    requires actions[k] == Scan(pid) && pid in After(c, Booted(slots), actions, k).requesters
    requires var t := After(c, Booted(slots), actions, k);
      t.requesters[pid].Asking? && !NoneLike(c, t.q, t.requesters[pid].job.payload)
    ensures actions[n] != Insert(pid) && !(actions[n].Spawn? && actions[n].pid == pid)
  {
    var s := Booted(slots);
    hide Inv, RunFrom, NoneLike, After;
    if actions[n] == Insert(pid) {
      NoAddAfterFind(c, s, actions, k, n, pid);
    } else if actions[n].Spawn? && actions[n].pid == pid {
      AfterNext(c, s, actions, n);
      assert Do(c, After(c, s, actions, n), actions[n]).Some?;
      var m := ThreadFollowsAdd(c, s, actions, n, pid);
      NoAddAfterFind(c, s, actions, k, m, pid);
    }
  }

  lemma {:induction false} NoAddAfterFind(c: Config, s: System, actions: seq<Action>, k: nat, n: nat, pid: nat)
    requires Inv(s) && RunFrom(c, s, actions).Some? && s.requesters == map[] && k < |actions| && n < |actions|
    requires actions[k] == Scan(pid) && pid in After(c, s, actions, k).requesters
    requires var t := After(c, s, actions, k);
      t.requesters[pid].Asking? && !NoneLike(c, t.q, t.requesters[pid].job.payload)
    ensures actions[n] != Insert(pid)
  {
    hide Inv, RunFrom, Do, NoneLike, After, NotAmong;
    if actions[n] == Insert(pid) {
      var m, job := AddFollowsLookup(c, s, actions, n, pid);
      if m < k {
        OneLookup(c, s, actions, m, k, pid);
      } else if k < m {
        OneLookup(c, s, actions, k, m, pid);
      }
    }
  }

  // ------------------------------------------------------------ no job twice

  /** The add of request pid puts a job with this source and output type into the queue. */
  ghost predicate AddsLike(c: Config, s: System, pid: nat, key: Payload) {
    && pid in s.requesters && s.requesters[pid].Missing?
    && c.same(s.requesters[pid].job.payload.sourceId, key.sourceId)
    && c.same(s.requesters[pid].job.payload.outputFileType, key.outputFileType)
  }

  /** Between a request's lookup, which is for this job, and its add, step n, no other request
      adds such a job. */
  ghost predicate Undisturbed(c: Config, s: System, actions: seq<Action>, n: nat, pid: nat, key: Payload)
    requires Inv(s) && RunFrom(c, s, actions).Some? && n < |actions|
  {
    forall k: nat, m: nat :: k < m < n && actions[k] == Scan(pid) && actions[m].Insert? ==>
      !AddsLike(c, After(c, s, actions, m), actions[m].pid, key)
  }

  ghost predicate AllUndisturbed(c: Config, s: System, actions: seq<Action>)
    requires Inv(s) && RunFrom(c, s, actions).Some?
  {
    forall n: nat, pid: nat, job: Job ::
      n < |actions| && actions[n] == Insert(pid) && Is(After(c, s, actions, n), pid, Missing(job)) ==>
        Undisturbed(c, s, actions, n, pid, job.payload)
  }

  lemma {:induction false} InsertMatches(c: Config, s: System, pid: nat, key: Payload)
    requires Inv(s) && HeadOk(s.q) && Do(c, s, Insert(pid)).Some? && !AddsLike(c, s, pid, key)
    ensures Do(c, s, Insert(pid)).value.q.Shaped()
    ensures |Matches(Do(c, s, Insert(pid)).value.q, c.same, key)| == |Matches(s.q, c.same, key)|
  {
    var job := s.requesters[pid].job;
    assert Do(c, s, Insert(pid)).value.q == AddState(s.q, job).0;
    hide Matches, AddState, Do;
    if AddState(s.q, job).1 == 0 {
      QueueRuns.AddMatches(c.same, s.q, job, key);
    } else {
      RefusedMatches(c, s.q, job, key);
    }
  }

  lemma {:induction false} StillNone(c: Config, s: System, actions: seq<Action>, k: nat, m: nat, n: nat,
                                     pid: nat, job: Job)
    requires Inv(s) && RunFrom(c, s, actions).Some? && k < m <= n < |actions|
    requires FoundNothing(c, s, actions, k, pid, job) && Undisturbed(c, s, actions, n, pid, job.payload)
    ensures |Matches(After(c, s, actions, m).q, c.same, job.payload)| == 0
    decreases m
  {
    hide Inv, RunFrom, Do, HeadOk, AddsLike, Matches, After;
    AfterNext(c, s, actions, m - 1);
    var t := After(c, s, actions, m - 1);
    if k < m - 1 {
      StillNone(c, s, actions, k, m - 1, n, pid, job);
      if actions[m - 1].Insert? {
        InsertMatches(c, t, actions[m - 1].pid, job.payload);
      } else {
        KeptMatches(c, t, actions[m - 1], job.payload);
      }
    } else {
      NoneLikeIsNoMatch(c, t.q, job.payload);
      KeptMatches(c, t, actions[m - 1], job.payload);
    }
  }

  /** If between a request's lookup and its add no other request adds a job with the same source
      and output type, no job is ever in the queue twice: what one lock around both would give. */
  lemma {:induction false} UndisturbedStaySingle(c: Config, slots: seq<Job>, actions: seq<Action>)
    requires Equivalence(c.same) && Run(c, slots, actions).Some?
    requires Inv(Booted(slots)) && RunFrom(c, Booted(slots), actions).Some?
    requires AllUndisturbed(c, Booted(slots), actions)
    ensures AlwaysSingle(c, Booted(slots), actions)
  {
    SingleExactlyWhenAddsMeetNoMatch(c, slots, actions);
    var s := Booted(slots);
    assert s.requesters == map[];
    hide Inv, RunFrom, Booted, After, Undisturbed, Matches, AlwaysSingle, Equivalence;
    forall n: nat | n < |actions|
      ensures !MeetsMatch(c, After(c, s, actions, n), actions[n])
    {
      if actions[n].Insert? {
        MeetsNone(c, s, actions, n, actions[n].pid);
      }
    }
  }

  lemma {:induction false} MeetsNone(c: Config, s: System, actions: seq<Action>, n: nat, pid: nat)
    requires Inv(s) && RunFrom(c, s, actions).Some? && AllUndisturbed(c, s, actions) && s.requesters == map[]
    requires n < |actions| && actions[n] == Insert(pid)
    ensures !MeetsMatch(c, After(c, s, actions, n), actions[n])
  {
    hide Inv, RunFrom, After, Undisturbed, Matches, FoundNothing, NotAmong;
    var k, job := AddFollowsLookup(c, s, actions, n, pid);
    StillNone(c, s, actions, k, n, n, pid, job);
  }

  // ------------------------------------------------------------ the lock

  /** While the lock is left held, only the steps outside it are possible, and they are possible
      as if it were free; none gives it back. */
  lemma {:induction false} HeldStep(c: Config, s: System, a: Action)
    requires HeadOk(s.q) && s.q.held
    ensures HeadOk(s.q.(held := false))
    ensures Do(c, s, a).Some? <==>
      (a.Ask? || a.Spawn? || a.ReadIndex?) && Do(c, s.(q := s.q.(held := false)), a).Some?
    ensures Do(c, s, a).Some? ==> Do(c, s, a).value.q == s.q
  {
  }

  lemma {:induction false} HeldAfterStep(c: Config, s: System, a: Action)
    requires Inv(s) && HeadOk(s.q) && !s.q.held && Do(c, s, a).Some?
    ensures Do(c, s, a).value.q.held <==> a.Insert? && !HasRoom(s.q)
  {
    match a
    case Scan(pid) => ScanRefines(s.q, c.same, s.requesters[pid].job.payload);
    case Insert(pid) => HeldAfterInsert(s.q, s.requesters[pid].job);
    case Fetch(_) => GetRefines(s.q);
    case Finish(wid) => FinishKeepsInv(c, s, wid);
    case _ =>
  }

  lemma {:induction false} HeldAfterInsert(q: QueueState, job: Job)
    requires Valid(q) && !q.held
    ensures AddState(q, job).0.held <==> !HasRoom(q)
  {
    AddRefines(q, job);
    AddedIfRoom(q, job);
  }

  /** Step k of the run is an add to a full queue. */
  ghost predicate FoundFull(c: Config, s: System, actions: seq<Action>, k: nat)
    requires Inv(s) && RunFrom(c, s, actions).Some? && k < |actions|
  {
    actions[k].Insert? && !HasRoom(After(c, s, actions, k).q)
  }

  /** The lock is left held exactly by an add to a full queue. From there on no step of any
      request or thread changes the queue: nothing is looked up, added, taken or given back. */
  lemma {:induction false} LockLostExactlyByFullAdd(c: Config, slots: seq<Job>, actions: seq<Action>, n: nat)
    requires Run(c, slots, actions).Some? && n <= |actions|
    requires Inv(Booted(slots)) && RunFrom(c, Booted(slots), actions).Some?
    ensures var s := Booted(slots);
      After(c, s, actions, n).q.held <==> exists k: nat :: k < n && FoundFull(c, s, actions, k)
    ensures var s := Booted(slots);
      After(c, s, actions, n).q.held ==>
        && After(c, s, actions, |actions|).q == After(c, s, actions, n).q
        && forall m: nat :: n <= m < |actions| ==> actions[m].Ask? || actions[m].Spawn? || actions[m].ReadIndex?
  {
    var s := Booted(slots);
    assert !s.q.held;
    hide Inv, RunFrom, Booted, After, FoundFull;
    HeldSince(c, s, actions, n);
    if After(c, s, actions, n).q.held {
      forall m: nat | n <= m < |actions|
        ensures actions[m].Ask? || actions[m].Spawn? || actions[m].ReadIndex?
      {
        HeldFrom(c, s, actions, n, m);
        AfterNext(c, s, actions, m);
        HeldStep(c, After(c, s, actions, m), actions[m]);
      }
      HeldFrom(c, s, actions, n, |actions|);
    }
  }

  lemma {:induction false} HeldFrom(c: Config, s: System, actions: seq<Action>, n: nat, m: nat)
    requires Inv(s) && RunFrom(c, s, actions).Some? && n <= m <= |actions| && After(c, s, actions, n).q.held
    ensures After(c, s, actions, m).q == After(c, s, actions, n).q
    decreases m
  {
    hide Inv, RunFrom, Do, After;
    if n < m {
      HeldFrom(c, s, actions, n, m - 1);
      AfterNext(c, s, actions, m - 1);
      HeldStep(c, After(c, s, actions, m - 1), actions[m - 1]);
    }
  }

  lemma {:induction false} HeldSince(c: Config, s: System, actions: seq<Action>, n: nat)
    requires Inv(s) && RunFrom(c, s, actions).Some? && n <= |actions| && !s.q.held
    ensures After(c, s, actions, n).q.held <==> exists k: nat :: k < n && FoundFull(c, s, actions, k)
    decreases n
  {
    hide *;
    AfterNone(c, s, actions);
    if n > 0 {
      HeldSince(c, s, actions, n - 1);
      HeldNext(c, s, actions, n - 1);
      if k: nat :| k < n && FoundFull(c, s, actions, k) {
        assert k < n - 1 || k == n - 1;
      }
    }
  }

  lemma {:induction false} HeldNext(c: Config, s: System, actions: seq<Action>, n: nat)
    requires Inv(s) && RunFrom(c, s, actions).Some? && n < |actions|
    ensures After(c, s, actions, n + 1).q.held <==> After(c, s, actions, n).q.held || FoundFull(c, s, actions, n)
  {
    AfterNext(c, s, actions, n);
    hide Inv, RunFrom, Do, After, HasRoom;
    var t := After(c, s, actions, n);
    if t.q.held {
      HeldStep(c, t, actions[n]);
    } else {
      HeldAfterStep(c, t, actions[n]);
    }
  }
}
