/** The queue as the processes share it: one object whose fields the critical sections
    update in place. Each method is one critical section and is proved to be the state
    function of the same name in DecodingQueue. */
module SharedQueue {
  import opened Options
  import opened Masks
  import opened DecodingQueue

  /** What *dec_job points at during a lookup: the caller's own job or a slot. */
  datatype JobPointer = Own(key: Payload) | Slot(index: nat)

  class Queue {
    var head: int
    var tail: int
    var working: Mask
    var waiting: Mask
    const decoding: array<Job>
    /** The global mutex was taken and not given back. */
    var held: bool

    ghost function View(): QueueState
      reads this, decoding
    {
      QueueState(head, tail, working, waiting, decoding[..], held)
    }

    constructor (slots: array<Job>)
      ensures decoding == slots && View() == Initial(slots[..])
      ensures Valid(View()) && !held
    {
      decoding := slots;
      head, tail := 0, -1;
      working, waiting := Zeros(slots.Length), Zeros(slots.Length);
      held := false;
      new;
      InitialValid(decoding[..]);
    }

    method Get() returns (job: Option<nat>)
      requires Valid(View()) && !held
      modifies this`head, this`waiting, this`working
      ensures old(NonZero(waiting) ==> 0 <= head < decoding.Length)
      ensures (View(), job) == GetState(old(View()))
      ensures Valid(View()) && !held
    {
      GetRefines(View());
      if NonZero(waiting) {
        var index := head;
        var indexFlag := Flag(decoding.Length, index);
        waiting := And(waiting, Not(indexFlag));
        head := decoding[index].next;
        working := Or(working, indexFlag);
        job := Some(index);
      } else {
        job := None;
      }
    }

    method Add(job: Job) returns (status: int)
      requires Valid(View()) && !held
      modifies this`head, this`tail, this`waiting, this`held, decoding
      ensures (View(), status) == AddState(old(View()), job)
      ensures Valid(View()) && (held <==> status == -1)
    {
      ghost var before := View();
      status := Insert(job);
      AddRefines(before, job);
    }

    /** The body of the critical section, which needs only a well-shaped queue. */
    method Insert(job: Job) returns (status: int)
      requires View().Shaped() && !held
      modifies this`head, this`tail, this`waiting, this`held, decoding
      ensures (View(), status) == AddState(old(View()), job)
    {
      ghost var before := View();
      var free := Not(Or(waiting, working));
      LeadingZerosLeast(free);
      if !NonZero(free) {
        held := true;
        return -1;
      }
      var emptyIndex := LeadingZeros(free);
      if !NonZero(waiting) {
        head := emptyIndex;
      }
      decoding[emptyIndex] := job;
      decoding[emptyIndex] := decoding[emptyIndex].(index := emptyIndex);
      decoding[emptyIndex] := decoding[emptyIndex].(next := -1);
      waiting := Or(waiting, Flag(decoding.Length, emptyIndex));
      if tail >= 0 {
        decoding[tail] := decoding[tail].(next := emptyIndex);
      }
      tail := emptyIndex;
      status := 0;
      assert decoding[..] == AddState(before, job).0.decoding;
    }

    /** End of the encoder's loop body. */
    method Release(index: nat)
      requires Valid(View()) && !held && index < decoding.Length && working[index]
      modifies this`working
      ensures View() == ReleaseState(old(View()), index)
      ensures Valid(View()) && !held
    {
      ReleaseRefines(View(), index);
      working := And(working, Not(Flag(decoding.Length, index)));
    }

    /** (*dec_job)->source_id and ->output_file_type are read through the pointer. */
    function KeyOf(p: JobPointer): Payload
      requires p.Slot? ==> p.index < decoding.Length
      reads decoding
    {
      match p
      case Own(key) => key
      case Slot(i) => decoding[i].payload
    }

    /** does_decoding_job_exsits. The scan meets each occupied slot once, in increasing
        order; the key is read through the pointer, which is moved to every match and ends at
        the greatest. */
    method Exists(same: (string, string) -> bool, job: Option<Payload>)
        returns (found: nat, pointer: Option<JobPointer>, ghost visited: seq<nat>)
      requires Valid(View()) && !held && Equivalence(same)
      modifies decoding
      ensures job.None? ==> found == 0 && pointer == None && View() == old(View())
      ensures job.Some? ==>
        && View() == ScanState(old(View()), same, job.value)
        && found == |Matches(old(View()), same, job.value)|
        && Ascending(visited)
        && (forall i: nat | i < decoding.Length :: i in visited <==> old(View().Occupied(i)))
        && (found == 0 <==> pointer == Some(Own(job.value)))
        && (found > 0 ==>
              && pointer.Some? && pointer.value.Slot?
              && pointer.value.index in Matches(old(View()), same, job.value)
              && forall i | i in Matches(old(View()), same, job.value) :: i <= pointer.value.index)
      ensures Valid(View()) && !held
    {
      found, pointer, visited := 0, None, [];
      if job.None? {
        return;
      }
      ghost var before := View();
      var p;
      found, p, visited := Scan(same, job.value);
      pointer := Some(p);
      ScanRefines(before, same, job.value);
      hide ScanState, Valid;
      LastMatchGreatest(visited, Matches(before, same, job.value), job.value);
    }

    method Scan(same: (string, string) -> bool, key: Payload)
        returns (found: nat, p: JobPointer, ghost visited: seq<nat>)
      requires View().Shaped() && Equivalence(same)
      modifies decoding
      ensures View() == ScanState(old(View()), same, key)
      ensures found == |Matches(old(View()), same, key)|
      ensures Ascending(visited)
      ensures forall i: nat | i < decoding.Length :: i in visited <==> old(View().Occupied(i))
      ensures p == LastMatch(visited, Matches(old(View()), same, key), key)
    {
      ghost var before := View();
      found, p, visited := 0, Own(key), [];
      var hasJob := Or(waiting, working);
      ScanStart(before, same, key);
      hide Visited, Scanned, LastMatch, StatusAt, Matches, ScanState, Or, And, Not, Flag, SameJob, Equivalence,
        LeadingZeros, Ascending;
      var i := LeadingZeros(hasJob);
      ghost var seen: set<nat> := {};
      while NonZero(hasJob)
        invariant |hasJob| == decoding.Length && i == LeadingZeros(hasJob)
        invariant Visited(before, hasJob, visited)
        invariant Scanned(before, same, key, decoding[..], visited, seen, p)
        invariant found == |seen| && (p.Slot? ==> p.index < decoding.Length)
        decreases |Members(hasJob)|
      {
        VisitedStep(before, hasJob, visited);
        ScannedStep(before, same, key, decoding[..], visited, seen, p, i);
        visited := visited + [i];
        ghost var jobs := decoding[..];
        if SameJob(same, decoding[i].payload, KeyOf(p)) {
          p := Slot(i);
          decoding[i] := decoding[i].(status := StatusAt(i));
          found := found + 1;
          seen := seen + {i};
          assert decoding[..] == jobs[i := jobs[i].(status := StatusAt(i))];
        }
        hasJob, i := NextJob(hasJob, i);
      }
      ScannedAll(before, same, key, hasJob, decoding[..], visited, seen, p);
    }
  }

  /** i = clz(has_job &= ~(1ull << (63 - i))) */
  method NextJob(hasJob: Mask, i: nat) returns (rest: Mask, next: nat)
    requires i < |hasJob| && hasJob[i]
    ensures rest == hasJob[i := false] && next == LeadingZeros(rest)
    ensures |Members(rest)| < |Members(hasJob)|
  {
    SetAndClear(hasJob, i);
    assert i in Members(hasJob);
    rest := And(hasJob, Not(Flag(|hasJob|, i)));
    next := LeadingZeros(rest);
  }

  ghost predicate Ascending(s: seq<nat>) {
    forall a, b :: 0 <= a < b < |s| ==> s[a] < s[b]
  }

  /** Where the pointer rests: at the last visited match, or still at the caller's job. */
  ghost function LastMatch(visited: seq<nat>, matches: set<nat>, key: Payload): JobPointer {
    if visited == [] then Own(key)
    else
      var i := visited[|visited| - 1];
      if i in matches then Slot(i) else LastMatch(visited[..|visited| - 1], matches, key)
  }

  /** All matches being visited in increasing order, the pointer rests at the greatest. */
  lemma {:induction false} LastMatchGreatest(visited: seq<nat>, matches: set<nat>, key: Payload)
    requires Ascending(visited) && forall i | i in matches :: i in visited
    ensures LastMatch(visited, matches, key) == Own(key) <==> |matches| == 0
    ensures var p := LastMatch(visited, matches, key);
      p.Slot? <==> |matches| > 0
    ensures var p := LastMatch(visited, matches, key);
      p.Slot? ==> p.index in matches && forall i | i in matches :: i <= p.index
  {
    LastMatchAmong(visited, matches, key);
    if i :| i in matches {
      assert |matches| > 0;
    }
  }

  lemma {:induction false} LastMatchAmong(visited: seq<nat>, matches: set<nat>, key: Payload)
    requires Ascending(visited)
    ensures match LastMatch(visited, matches, key)
      case Own(k) => k == key && forall i | i in visited :: i !in matches
      case Slot(m) => m in matches && forall i | i in visited && i in matches :: i <= m
  {
    if visited != [] {
      LastMatchAmong(visited[..|visited| - 1], matches, key);
    }
  }

  /** Mid-scan: the visited slots are the occupied ones no longer in hasJob, all below it. */
  ghost predicate Visited(q: QueueState, hasJob: Mask, visited: seq<nat>)
    requires q.Shaped() && |hasJob| == q.Width()
  {
    && Ascending(visited)
    && (forall k: nat | k < q.Width() :: q.Occupied(k) <==> k in visited || hasJob[k])
    && (forall k | k in visited :: k < q.Width() && (forall j: nat | j < q.Width() && hasJob[j] :: k < j))
  }

  /** Mid-scan: `seen` are the visited matches, which have been given their status while
      nothing else changed, and the pointer rests at the last of them. */
  ghost predicate Scanned(q: QueueState, same: (string, string) -> bool, key: Payload,
                          decoding: seq<Job>, visited: seq<nat>, seen: set<nat>, p: JobPointer)
    requires q.Shaped()
  {
    && (forall k :: k in seen <==> k in visited && k in Matches(q, same, key))
    && |decoding| == |q.decoding|
    && (forall k: nat | k < |decoding| ::
          decoding[k] == if k in seen then q.decoding[k].(status := StatusAt(k)) else q.decoding[k])
    && p == LastMatch(visited, Matches(q, same, key), key)
    && (p.Slot? ==> p.index < |decoding|)
  }

  lemma {:induction false} LastMatchMore(visited: seq<nat>, i: nat, matches: set<nat>, key: Payload)
    ensures LastMatch(visited + [i], matches, key) == if i in matches then Slot(i) else LastMatch(visited, matches, key)
  {
    assert (visited + [i])[..|visited|] == visited;
  }

  lemma {:induction false} ScannedHit(q: QueueState, same: (string, string) -> bool, key: Payload,
                    decoding: seq<Job>, visited: seq<nat>, seen: set<nat>, p: JobPointer, i: nat)
    requires q.Shaped() && i < q.Width() && i !in visited && i in Matches(q, same, key)
    requires Scanned(q, same, key, decoding, visited, seen, p)
    ensures i < |decoding| && Scanned(q, same, key, decoding[i := decoding[i].(status := StatusAt(i))],
                                      visited + [i], seen + {i}, Slot(i))
  {
    hide StatusAt, Matches, LastMatch;
    LastMatchMore(visited, i, Matches(q, same, key), key);
    assert forall k :: k in visited + [i] <==> k in visited || k == i;
  }

  lemma {:induction false} ScannedMiss(q: QueueState, same: (string, string) -> bool, key: Payload,
                    decoding: seq<Job>, visited: seq<nat>, seen: set<nat>, p: JobPointer, i: nat)
    requires q.Shaped() && i < q.Width() && i !in visited && i !in Matches(q, same, key)
    requires Scanned(q, same, key, decoding, visited, seen, p)
    ensures Scanned(q, same, key, decoding, visited + [i], seen, p)
  {
    hide StatusAt, Matches, LastMatch;
    LastMatchMore(visited, i, Matches(q, same, key), key);
    assert forall k :: k in visited + [i] <==> k in visited || k == i;
  }

  /** The job behind the moving pointer matches slot i exactly when the caller's own job does. */
  lemma {:induction false} BehindMatches(q: QueueState, same: (string, string) -> bool, key: Payload,
                    decoding: seq<Job>, visited: seq<nat>, seen: set<nat>, p: JobPointer, i: nat)
    requires q.Shaped() && Equivalence(same) && i < q.Width() && q.Occupied(i) && i !in visited
    requires Scanned(q, same, key, decoding, visited, seen, p)
    ensures i !in seen && |decoding| == q.Width() && (p.Slot? ==> p.index < |decoding|)
    ensures decoding[i].payload == q.decoding[i].payload
    ensures var behind := if p.Own? then p.key else decoding[p.index].payload;
      SameJob(same, decoding[i].payload, behind) <==> i in Matches(q, same, key)
  {
    LastMatchKey(q, same, key, visited, q.decoding[i].payload);
    assert i in Matches(q, same, key) <==> SameJob(same, q.decoding[i].payload, key);
    hide StatusAt, Matches, SameJob, LastMatch, Equivalence;
  }

  lemma {:induction false} ScannedStep(q: QueueState, same: (string, string) -> bool, key: Payload,
                    decoding: seq<Job>, visited: seq<nat>, seen: set<nat>, p: JobPointer, i: nat)
    requires q.Shaped() && Equivalence(same) && i < q.Width() && q.Occupied(i) && i !in visited
    requires Scanned(q, same, key, decoding, visited, seen, p)
    ensures i !in seen && |decoding| == q.Width() && (p.Slot? ==> p.index < |decoding|)
    ensures decoding[i].payload == q.decoding[i].payload
    ensures var behind := if p.Own? then p.key else decoding[p.index].payload;
      if SameJob(same, decoding[i].payload, behind)
      then Scanned(q, same, key, decoding[i := decoding[i].(status := StatusAt(i))],
                   visited + [i], seen + {i}, Slot(i))
      else Scanned(q, same, key, decoding, visited + [i], seen, p)
  {
    hide StatusAt, Matches, SameJob, LastMatch, Equivalence, Scanned;
    BehindMatches(q, same, key, decoding, visited, seen, p, i);
    if i in Matches(q, same, key) {
      ScannedHit(q, same, key, decoding, visited, seen, p, i);
    } else {
      ScannedMiss(q, same, key, decoding, visited, seen, p, i);
    }
  }

  lemma {:induction false} ScanStart(q: QueueState, same: (string, string) -> bool, key: Payload)
    requires q.Shaped()
    ensures Visited(q, Or(q.waiting, q.working), [])
    ensures Scanned(q, same, key, q.decoding, [], {}, Own(key))
  {
  }

  lemma {:induction false} ScannedAll(q: QueueState, same: (string, string) -> bool, key: Payload, hasJob: Mask,
                   decoding: seq<Job>, visited: seq<nat>, seen: set<nat>, p: JobPointer)
    requires q.Shaped() && Scanned(q, same, key, decoding, visited, seen, p)
    requires |hasJob| == q.Width() && Visited(q, hasJob, visited) && !NonZero(hasJob)
    ensures Ascending(visited)
    ensures forall i: nat | i < q.Width() :: i in visited <==> q.Occupied(i)
    ensures p == LastMatch(visited, Matches(q, same, key), key)
    ensures seen == Matches(q, same, key)
    ensures q.(decoding := decoding) == ScanState(q, same, key)
  {
    forall k: nat | k < q.Width()
      ensures k in visited <==> q.Occupied(k)
    {
      assert !hasJob[k];
    }
    assert seen == Matches(q, same, key);
    assert decoding == ScanState(q, same, key).decoding;
  }

  lemma {:induction false} VisitedStep(q: QueueState, hasJob: Mask, visited: seq<nat>)
    requires q.Shaped() && |hasJob| == q.Width() && Visited(q, hasJob, visited) && NonZero(hasJob)
    ensures LeadingZeros(hasJob) < |hasJob|
    ensures var i := LeadingZeros(hasJob);
      && i !in visited && q.Occupied(i) && hasJob[i]
      && Visited(q, hasJob[i := false], visited + [i])
  {
    LeadingZerosLeast(hasJob);
    var i := LeadingZeros(hasJob);
    var more, rest := visited + [i], hasJob[i := false];
    assert hasJob[i];
    forall a, b | 0 <= a < b < |more|
      ensures more[a] < more[b]
    {
      assert visited[a] in visited;
    }
    forall k: nat | k < q.Width()
      ensures q.Occupied(k) <==> k in more || rest[k]
    {
      assert k in more <==> k in visited || k == i;
    }
    forall k | k in more
      ensures k < q.Width() && forall j: nat | j < q.Width() && rest[j] :: k < j
    {
      assert k in visited || k == i;
      forall j: nat | j < q.Width() && rest[j]
        ensures k < j
      {
        assert hasJob[j];
      }
    }
  }

  /** The key behind the pointer accepts the same jobs as the caller's own key. */
  lemma {:induction false} LastMatchKey(q: QueueState, same: (string, string) -> bool, key: Payload,
                                        visited: seq<nat>, x: Payload)
    requires q.Shaped() && Equivalence(same)
    ensures var p := LastMatch(visited, Matches(q, same, key), key);
      match p
      case Own(k) => k == key
      case Slot(i) => i < q.Width() && SameJob(same, x, q.decoding[i].payload) == SameJob(same, x, key)
  {
    if visited != [] {
      LastMatchKey(q, same, key, visited[..|visited| - 1], x);
    }
  }
}
