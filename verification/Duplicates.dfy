/** When the two-step protocol of the request handlers, lookup and then add, keeps every job
    in the queue once. */
module Duplicates {
  import opened Options
  import opened Masks
  import opened DecodingQueue
  import opened Transcoder
  import QueueRuns

  /** No lookup, for whatever job, would count more than one. */
  ghost predicate Single(c: Config, s: System)
    requires s.q.Shaped()
  {
    forall key :: |Matches(s.q, c.same, key)| <= 1
  }

  /** The action is an add that is accepted although the queue holds a match for its job. */
  ghost predicate MeetsMatch(c: Config, s: System, a: Action)
    requires s.q.Shaped()
  {
    && a.Insert? && a.pid in s.requesters && s.requesters[a.pid].Missing?
    && AddState(s.q, s.requesters[a.pid].job).1 == 0
    && Matches(s.q, c.same, s.requesters[a.pid].job.payload) != {}
  }

  lemma {:induction false} KeptMatches(c: Config, s: System, a: Action, key: Payload)
    requires Inv(s) && HeadOk(s.q) && Do(c, s, a).Some? && !a.Insert?
    ensures Do(c, s, a).value.q.Shaped()
    ensures |Matches(Do(c, s, a).value.q, c.same, key)| <= |Matches(s.q, c.same, key)|
  {
    var q, q' := s.q, Do(c, s, a).value.q;
    match a
    case Scan(pid) => QueueRuns.ScanMatches(c.same, q, s.requesters[pid].job.payload, key);
    case Fetch(_) =>
      QueueRuns.StepMatches(c.same, q, QueueRuns.TakeJob, key);
      QueueRuns.SubsetCard(Matches(q', c.same, key), Matches(q, c.same, key));
    case Finish(wid) =>
      QueueRuns.StepMatches(c.same, q, QueueRuns.Return(s.workers[wid].index), key);
      QueueRuns.SubsetCard(Matches(q', c.same, key), Matches(q, c.same, key));
    case _ =>
  }

  lemma {:induction false} RefusedMatches(c: Config, q: QueueState, job: Job, key: Payload)
    requires Valid(q) && AddState(q, job).1 != 0
    ensures AddState(q, job).0.Shaped()
    ensures Matches(AddState(q, job).0, c.same, key) == Matches(q, c.same, key)
  {
    AddRefines(q, job);
  }

  /** An accepted add keeps the jobs single exactly when it meets no match. */
  lemma {:induction false} AcceptedSingle(c: Config, s: System, job: Job)
    requires Equivalence(c.same) && Valid(s.q) && AddState(s.q, job).1 == 0 && Single(c, s)
    ensures AddState(s.q, job).0.Shaped()
    ensures (forall key :: |Matches(AddState(s.q, job).0, c.same, key)| <= 1)
       <==> Matches(s.q, c.same, job.payload) == {}
  {
    AddRefines(s.q, job);
    QueueRuns.AddMatches(c.same, s.q, job, job.payload);
    hide Matches, AddState, Valid;
    if Matches(s.q, c.same, job.payload) == {} {
      forall key
        ensures |Matches(AddState(s.q, job).0, c.same, key)| <= 1
      {
        QueueRuns.AddMatches(c.same, s.q, job, key);
        if SameJob(c.same, job.payload, key) {
          QueueRuns.SameMatches(c.same, s.q, job.payload, key);
        }
      }
    }
  }

  lemma {:induction false} ActionSingle(c: Config, s: System, a: Action)
    requires Equivalence(c.same) && Inv(s) && HeadOk(s.q) && Do(c, s, a).Some? && Single(c, s)
    ensures Do(c, s, a).value.q.Shaped()
    ensures Single(c, Do(c, s, a).value) <==> !MeetsMatch(c, s, a)
  {
    ActionKeepsInv(c, s, a);
    var s' := Do(c, s, a).value;
    if a.Insert? {
      var job := s.requesters[a.pid].job;
      assert s'.q == AddState(s.q, job).0;
      hide Do, Held, AddState, Matches;
      if AddState(s.q, job).1 == 0 {
        AcceptedSingle(c, s, job);
      } else {
        forall key
          ensures |Matches(s'.q, c.same, key)| <= 1
        {
          RefusedMatches(c, s.q, job, key);
        }
      }
    } else {
      forall key
        ensures |Matches(s'.q, c.same, key)| <= 1
      {
        KeptMatches(c, s, a, key);
      }
    }
  }

  // ------------------------------------------------------------ whole runs

  /** The state after the first n actions of a run. */
  ghost function After(c: Config, s: System, actions: seq<Action>, n: nat): (t: System)
    requires Inv(s) && RunFrom(c, s, actions).Some? && n <= |actions|
    ensures Inv(t) && t.q.Shaped()
    decreases n
  {
    InvHead(s);
    if n == 0 then s
    else
      FirstAction(c, s, actions);
      After(c, Do(c, s, actions[0]).value, actions[1..], n - 1)
  }

  lemma {:induction false} FirstAction(c: Config, s: System, actions: seq<Action>)
    requires Inv(s) && RunFrom(c, s, actions).Some? && actions != []
    ensures HeadOk(s.q) && Do(c, s, actions[0]).Some? && Inv(Do(c, s, actions[0]).value)
    ensures RunFrom(c, s, actions) == RunFrom(c, Do(c, s, actions[0]).value, actions[1..])
  {
    InvHead(s);
    ActionKeepsInv(c, s, actions[0]);
    hide Inv, Do;
  }

  /** The state reached is the one the run of these actions ends in. */
  lemma {:induction false} AfterIsRun(c: Config, s: System, actions: seq<Action>, n: nat)
    requires Inv(s) && RunFrom(c, s, actions).Some? && n <= |actions|
    ensures RunFrom(c, s, actions[..n]) == Some(After(c, s, actions, n))
    decreases n
  {
    hide Inv, Do;
    if n > 0 {
      FirstAction(c, s, actions);
      AfterIsRun(c, Do(c, s, actions[0]).value, actions[1..], n - 1);
      assert actions[..n] == [actions[0]] + actions[1..][..n - 1];
      RunCons(c, s, actions[0], actions[1..][..n - 1]);
    }
  }

  lemma {:induction false} AfterNext(c: Config, s: System, actions: seq<Action>, n: nat)
    requires Inv(s) && RunFrom(c, s, actions).Some? && n < |actions|
    ensures HeadOk(After(c, s, actions, n).q)
    ensures Do(c, After(c, s, actions, n), actions[n]) == Some(After(c, s, actions, n + 1))
    decreases n
  {
    hide Inv, Do, HeadOk, RunFrom;
    FirstAction(c, s, actions);
    if n > 0 {
      AfterNext(c, Do(c, s, actions[0]).value, actions[1..], n - 1);
    }
  }

  ghost predicate AlwaysSingle(c: Config, s: System, actions: seq<Action>)
    requires Inv(s) && RunFrom(c, s, actions).Some?
  {
    forall n: nat | n <= |actions| :: Single(c, After(c, s, actions, n))
  }

  ghost predicate AddsMeetNoMatch(c: Config, s: System, actions: seq<Action>)
    requires Inv(s) && RunFrom(c, s, actions).Some?
  {
    forall n: nat | n < |actions| :: !MeetsMatch(c, After(c, s, actions, n), actions[n])
  }

  /** In every run of requests and encoder threads, no job is ever in the queue twice exactly
      when no accepted add meets a match of its job: the test that the code would have to
      repeat before adding, under the same lock. */
  lemma {:induction false} SingleExactlyWhenAddsMeetNoMatch(c: Config, slots: seq<Job>, actions: seq<Action>)
    requires Equivalence(c.same) && Run(c, slots, actions).Some?
    ensures Inv(Booted(slots)) && RunFrom(c, Booted(slots), actions).Some?
    ensures AlwaysSingle(c, Booted(slots), actions) <==> AddsMeetNoMatch(c, Booted(slots), actions)
  {
    BootedSingle(c, slots);
    hide Inv, RunFrom, Booted, Single, AlwaysSingle, AddsMeetNoMatch;
    if AlwaysSingle(c, Booted(slots), actions) {
      SingleMeetsNone(c, Booted(slots), actions);
    }
    if AddsMeetNoMatch(c, Booted(slots), actions) {
      NoneMetSingle(c, Booted(slots), actions);
    }
  }

  lemma {:induction false} SingleMeetsNone(c: Config, s: System, actions: seq<Action>)
    requires Equivalence(c.same) && Inv(s) && RunFrom(c, s, actions).Some? && AlwaysSingle(c, s, actions)
    ensures AddsMeetNoMatch(c, s, actions)
  {
    hide Inv, RunFrom, After, Single, MeetsMatch, Equivalence;
    forall n: nat | n < |actions|
      ensures !MeetsMatch(c, After(c, s, actions, n), actions[n])
    {
      assert Single(c, After(c, s, actions, n)) && Single(c, After(c, s, actions, n + 1));
      NextSingle(c, s, actions, n);
    }
  }

  lemma {:induction false} NoneMetSingle(c: Config, s: System, actions: seq<Action>)
    requires Equivalence(c.same) && Inv(s) && RunFrom(c, s, actions).Some? && Single(c, s)
    requires AddsMeetNoMatch(c, s, actions)
    ensures AlwaysSingle(c, s, actions)
  {
    hide Inv, RunFrom, After, Single, AddsMeetNoMatch, Equivalence;
    forall n: nat | n <= |actions|
      ensures Single(c, After(c, s, actions, n))
    {
      SingleSoFar(c, s, actions, n);
    }
  }

  lemma {:induction false} BootedSingle(c: Config, slots: seq<Job>)
    ensures Inv(Booted(slots)) && Single(c, Booted(slots))
  {
    BootedInv(slots);
    forall key
      ensures Matches(Booted(slots).q, c.same, key) == {}
    {
    }
  }

  lemma {:induction false} NextSingle(c: Config, s: System, actions: seq<Action>, n: nat)
    requires Equivalence(c.same) && Inv(s) && RunFrom(c, s, actions).Some? && n < |actions|
    requires Single(c, After(c, s, actions, n))
    ensures Single(c, After(c, s, actions, n + 1)) <==> !MeetsMatch(c, After(c, s, actions, n), actions[n])
  {
    AfterNext(c, s, actions, n);
    hide Single, MeetsMatch, RunFrom, After, Do;
    ActionSingle(c, After(c, s, actions, n), actions[n]);
  }

  lemma {:induction false} SingleSoFar(c: Config, s: System, actions: seq<Action>, n: nat)
    requires Equivalence(c.same) && Inv(s) && RunFrom(c, s, actions).Some? && n <= |actions|
    requires Single(c, s)
    requires AddsMeetNoMatch(c, s, actions)
    ensures Single(c, After(c, s, actions, n))
    decreases n
  {
    hide Inv, RunFrom, Single, MeetsMatch, Equivalence;
    if n > 0 {
      SingleSoFar(c, s, actions, n - 1);
      NextSingle(c, s, actions, n - 1);
    }
  }
}
