/** The decoding queue that all server processes share: a fixed array of jobs, two masks
    telling which slots wait and which are being worked on, and a singly linked list of
    slot numbers threaded through the waiting jobs. */
module DecodingQueue {
  import opened Options
  import opened Masks
  import Decimals

  /** The input and output fields of a job, which no queue operation rewrites. */
  datatype Payload = Payload(
    songId: string, artistId: string, albumId: string, sourceId: string,
    inputFilePath: string, inputFileType: string,
    outputFileType: string, outputFilePath: string, newSourceId: string)

  datatype Job = Job(index: int, payload: Payload, status: string, progress: real, next: int)

  /** The shared memory block, with the global mutex reduced to whether it is left held. */
  datatype QueueState = QueueState(
    head: int, tail: int, working: Mask, waiting: Mask, decoding: seq<Job>, held: bool)
  {
    function Width(): nat { |decoding| }

    predicate Shaped() {
      |waiting| == |working| == |decoding| && -1 <= tail < |decoding|
    }

    predicate Occupied(i: nat)
      requires Shaped() && i < Width()
    {
      waiting[i] || working[i]
    }
  }

  // ------------------------------------------------------------ the linked list

  /** The slots met by following `next` from `head` at most `count` times. */
  function Walk(decoding: seq<Job>, head: int, count: nat): (w: seq<nat>)
    ensures |w| <= count
    ensures forall k :: 0 <= k < |w| ==> w[k] < |decoding|
    decreases count
  {
    if count == 0 || !(0 <= head < |decoding|) then []
    else [head] + Walk(decoding, decoding[head].next, count - 1)
  }

  ghost predicate Distinct<T>(s: seq<T>) {
    forall i, j :: 0 <= i < j < |s| ==> s[i] != s[j]
  }

  /** The waiting slots in service order: the list cut off after popcount(waiting) steps,
      because the link of its last slot may be stale or point at that slot itself. */
  ghost function Order(q: QueueState): seq<nat> {
    Walk(q.decoding, q.head, |Members(q.waiting)|)
  }

  /** The list threads exactly the waiting slots, in the order w, and ends at the tail. */
  ghost predicate Threads(q: QueueState, w: seq<nat>)
    requires q.Shaped()
  {
    && Walk(q.decoding, q.head, |w|) == w
    && Distinct(w)
    && (forall i: nat | i < q.Width() :: q.waiting[i] <==> i in w)
    && (w != [] ==> w[|w| - 1] == q.tail)
  }

  /** What every reachable state satisfies. */
  ghost predicate Valid(q: QueueState) {
    && q.Shaped()
    && (forall i: nat | i < q.Width() :: !(q.waiting[i] && q.working[i]))
    && (forall i: nat | i < q.Width() && q.Occupied(i) :: q.decoding[i].index == i)
    && Threads(q, Order(q))
  }

  // ---------------------------------------------- critical sections on the state

  function Initial(decoding: seq<Job>): QueueState {
    QueueState(0, -1, Zeros(|decoding|), Zeros(|decoding|), decoding, false)
  }

  /** add_decoding_job_queue. The full queue is reported without unlocking. */
  function AddState(q: QueueState, job: Job): (QueueState, int)
    requires q.Shaped()
  {
    var free := Not(Or(q.waiting, q.working));
    LeadingZerosLeast(free);
    if !NonZero(free) then (q.(held := true), -1)
    else
      var e := LeadingZeros(free);
      var filled := q.decoding[e := job.(index := e, next := -1)];
      var linked := if q.tail >= 0 then filled[q.tail := filled[q.tail].(next := e)] else filled;
      (q.(head := if NonZero(q.waiting) then q.head else e,
          tail := e,
          waiting := Or(q.waiting, Flag(q.Width(), e)),
          decoding := linked), 0)
  }

  /** get_decoding_job_queue: the slot handed out, if any. */
  function GetState(q: QueueState): (QueueState, Option<nat>)
    requires q.Shaped() && (NonZero(q.waiting) ==> 0 <= q.head < q.Width())
  {
    if !NonZero(q.waiting) then (q, None)
    else
      var flag := Flag(q.Width(), q.head);
      (q.(waiting := And(q.waiting, Not(flag)),
          head := q.decoding[q.head].next,
          working := Or(q.working, flag)), Some(q.head))
  }

  /** The end of the encoder's loop body: give the slot back. */
  function ReleaseState(q: QueueState, i: nat): QueueState
    requires q.Shaped() && i < q.Width()
  {
    q.(working := And(q.working, Not(Flag(q.Width(), i))))
  }

  // ------------------------------------------------------------ duplicate lookup

  /** apr_strnatcmp(a, b) == 0 is taken as an arbitrary equivalence on strings. */
  ghost predicate Equivalence(same: (string, string) -> bool) {
    && (forall a :: same(a, a))
    && (forall a, b :: same(a, b) ==> same(b, a))
    && (forall a, b, c :: same(a, b) && same(b, c) ==> same(a, c))
  }

  predicate SameJob(same: (string, string) -> bool, a: Payload, b: Payload) {
    same(a.sourceId, b.sourceId) && same(a.outputFileType, b.outputFileType)
  }

  predicate Matching(q: QueueState, same: (string, string) -> bool, key: Payload, i: nat)
    requires q.Shaped()
  {
    i < q.Width() && q.Occupied(i) && SameJob(same, q.decoding[i].payload, key)
  }

  /** The occupied slots that hold the requested source and output type. */
  ghost function Matches(q: QueueState, same: (string, string) -> bool, key: Payload): set<nat>
    requires q.Shaped()
  {
    set i: nat | i < q.Width() && Matching(q, same, key, i)
  }

  function StatusAt(i: nat): string {
    "Decoding index: " + Decimals.Print(i) + " Working on"
  }

  /** The lookup's only effect: each matching slot reports where it is. */
  function ScanState(q: QueueState, same: (string, string) -> bool, key: Payload): QueueState
    requires q.Shaped()
  {
    q.(decoding := seq(q.Width(), i requires 0 <= i < q.Width() =>
      if Matching(q, same, key, i) then q.decoding[i].(status := StatusAt(i)) else q.decoding[i]))
  }

  // ------------------------------------------------------------ FIFO refinement

  /** The queue a client believes in: a line of jobs and the jobs being worked on. */
  datatype Fifo = Fifo(line: seq<Payload>, busy: map<nat, Payload>)

  function Payloads(decoding: seq<Job>, order: seq<nat>): (line: seq<Payload>)
    requires forall i | i in order :: i < |decoding|
    ensures |line| == |order|
  {
    seq(|order|, k requires 0 <= k < |order| =>
      assert order[k] in order; decoding[order[k]].payload)
  }

  ghost function Abstract(q: QueueState): Fifo
    requires q.Shaped()
  {
    Fifo(Payloads(q.decoding, Order(q)),
         map i: nat | i < q.Width() && q.working[i] :: q.decoding[i].payload)
  }

  lemma {:induction false} WalkFrame(d: seq<Job>, d': seq<Job>, h: int, n: nat)
    requires |d| == |d'|
    requires forall i | i in Walk(d, h, n) :: d'[i].next == d[i].next
    ensures Walk(d', h, n) == Walk(d, h, n)
    decreases n
  {
    if n > 0 && 0 <= h < |d| {
      assert h in Walk(d, h, n);
      forall i | i in Walk(d, d[h].next, n - 1)
        ensures d'[i].next == d[i].next
      {
        assert i in Walk(d, h, n);
      }
      WalkFrame(d, d', d[h].next, n - 1);
    }
  }

  /** Redirecting the link of the last slot of a complete walk appends one slot to it. */
  lemma {:induction false} WalkExtend(d: seq<Job>, d': seq<Job>, h: int, n: nat, e: nat)
    requires 0 < n && e < |d| == |d'|
    requires |Walk(d, h, n)| == n
    requires forall k :: 0 <= k < n - 1 ==> d'[Walk(d, h, n)[k]].next == d[Walk(d, h, n)[k]].next
    requires d'[Walk(d, h, n)[n - 1]].next == e
    ensures Walk(d', h, n + 1) == Walk(d, h, n) + [e]
    decreases n
  {
    var w := Walk(d, h, n);
    if n == 1 {
      assert w == [h] && Walk(d', e, 1) == [e];
    } else {
      var v := Walk(d, d[h].next, n - 1);
      assert forall k :: 0 <= k < n - 1 ==> v[k] == w[k + 1];
      assert d'[w[0]].next == d[w[0]].next;
      WalkExtend(d, d', d[h].next, n - 1, e);
    }
  }

  lemma {:induction false} InitialValid(decoding: seq<Job>)
    ensures Valid(Initial(decoding)) && Abstract(Initial(decoding)) == Fifo([], map[])
    ensures var q := Initial(decoding); !q.held && q.head == 0 && q.tail == -1 && q.decoding == decoding
  {
    assert Members(Zeros(|decoding|)) == {};
  }

  lemma {:induction false} DistinctSize(w: seq<nat>, s: set<nat>)
    requires Distinct(w) && forall i :: i in w <==> i in s
    ensures |w| == |s|
  {
    if w == [] {
      assert s == {};
    } else {
      var v := w[1..];
      assert w == [w[0]] + v;
      assert w[0] !in v;
      DistinctSize(v, s - {w[0]});
    }
  }

  /** A sequence that the list threads is the order: it has popcount(waiting) elements. */
  lemma {:induction false} ThreadsIsOrder(q: QueueState, w: seq<nat>)
    requires q.Shaped() && Threads(q, w)
    ensures |w| == |Members(q.waiting)| && Order(q) == w
  {
    assert forall k :: 0 <= k < |w| ==> w[k] in w && w[k] < |q.decoding|;
    DistinctSize(w, Members(q.waiting));
  }

  lemma {:induction false} LineIsPopCount(q: QueueState)
    requires Valid(q)
    ensures |Abstract(q).line| == |Members(q.waiting)|
    ensures Abstract(q).busy.Keys == Members(q.working)
    ensures Members(q.waiting) !! Members(q.working)
  {
    ThreadsIsOrder(q, Order(q));
  }

  lemma {:induction false} AllOccupied(q: QueueState)
    requires Valid(q)
    ensures |Members(q.waiting)| + |Members(q.working)| <= q.Width()
    ensures |Members(q.waiting)| + |Members(q.working)| == q.Width()
       <==> forall i: nat | i < q.Width() :: q.Occupied(i)
  {
    var waiting, working := Members(q.waiting), Members(q.working);
    var all := waiting + working;
    assert waiting !! working;
    assert |all| == |waiting| + |working|;
    SubsetSize(all, q.Width());
    if |all| == q.Width() {
      forall i: nat | i < q.Width()
        ensures q.Occupied(i)
      {
        assert i in all;
      }
    } else if forall i: nat | i < q.Width() :: q.Occupied(i) {
      forall i: nat | i < q.Width()
        ensures i in all
      {
        assert q.Occupied(i);
      }
      FullSize(all, q.Width());
    }
  }

  lemma {:induction false} FullSize(s: set<nat>, n: nat)
    requires forall i | i in s :: i < n
    requires forall i: nat | i < n :: i in s
    ensures |s| == n
  {
    if n == 0 {
      assert s == {};
    } else {
      FullSize(s - {n - 1}, n - 1);
    }
  }

  lemma {:induction false} FreeSlot(q: QueueState)
    requires q.Shaped()
    ensures var free := Not(Or(q.waiting, q.working));
      && (NonZero(free) <==> exists i: nat :: i < q.Width() && !q.Occupied(i))
      && (NonZero(free) ==> LeadingZeros(free) < q.Width() && !q.Occupied(LeadingZeros(free)))
  {
    var free := Not(Or(q.waiting, q.working));
    LeadingZerosLeast(free);
    if NonZero(free) {
      var e: nat := LeadingZeros(free);
      assert free[e] && !q.Occupied(e);
    } else {
      forall i: nat | i < q.Width()
        ensures q.Occupied(i)
      {
        assert !free[i];
      }
    }
  }

  /** q' is q after job went into the free slot e: the masks and the array, slot by slot. The old
      tail is linked to e, even when it is e itself. */
  ghost predicate Added(q: QueueState, q': QueueState, job: Job, e: nat)
    requires q.Shaped()
  {
    && q'.Shaped() && q'.Width() == q.Width()
    && e < q.Width() && !q.Occupied(e)
    && q'.waiting == q.waiting[e := true] && q'.working == q.working
    && q'.tail == e && q'.held == q.held
    && (q'.head == if NonZero(q.waiting) then q.head else e)
    && q'.decoding[e].(index := job.index, next := job.next) == job && q'.decoding[e].index == e
    && q'.decoding[e].next == (if q.tail == e then e else -1)
    && (forall i: nat | i < q.Width() && i != e ::
          q'.decoding[i].(next := q.decoding[i].next) == q.decoding[i])
    && (forall i: nat | i < q.Width() && i != e ::
          q'.decoding[i].next == if i == q.tail then e else q.decoding[i].next)
  }

  lemma {:induction false} AddSlots(q: QueueState, job: Job)
    requires q.Shaped()
    ensures var (q', rc) := AddState(q, job);
      if forall i: nat | i < q.Width() :: q.Occupied(i)
      then q' == q.(held := true) && rc == -1
      else rc == 0 && q'.tail >= 0 && Added(q, q', job, q'.tail)
  {
    FreeSlot(q);
    var free := Not(Or(q.waiting, q.working));
    if NonZero(free) {
      SetAndClear(q.waiting, LeadingZeros(free));
    }
  }

  lemma {:induction false} AddWalk(q: QueueState, q': QueueState, job: Job, e: nat, w: seq<nat>)
    requires q.Shaped() && Threads(q, w) && Added(q, q', job, e)
    ensures Walk(q'.decoding, q'.head, |w| + 1) == w + [e]
  {
    if w == [] {
      assert forall i: nat | i < q.Width() :: !q.waiting[i];
      assert !NonZero(q.waiting);
      assert Walk(q'.decoding, e, 1) == [e];
    } else {
      var m := |w|;
      assert q.tail in w && q.waiting[q.tail];
      forall k | 0 <= k < m - 1
        ensures q'.decoding[w[k]].next == q.decoding[w[k]].next
      {
        assert w[k] in w && w[k] != w[m - 1];
      }
      WalkExtend(q.decoding, q'.decoding, q.head, m, e);
    }
  }

  lemma {:induction false} AddThreads(q: QueueState, q': QueueState, job: Job, e: nat)
    requires Valid(q) && Added(q, q', job, e)
    ensures Valid(q') && Order(q') == Order(q) + [e]
  {
    var w := Order(q);
    AddWalk(q, q', job, e, w);
    assert e !in w;
    forall i: nat | i < q.Width()
      ensures q'.waiting[i] <==> i in w + [e]
    {
      assert q.waiting[i] <==> i in w;
    }
    ThreadsIsOrder(q', w + [e]);
  }

  lemma {:induction false} AddAbstract(q: QueueState, q': QueueState, job: Job, e: nat)
    requires Valid(q) && Added(q, q', job, e) && Order(q') == Order(q) + [e]
    ensures Abstract(q') == Abstract(q).(line := Abstract(q).line + [job.payload])
  {
    hide Walk, Order;
    assert e !in Order(q);
    SamePayloads(q.decoding, q'.decoding, Order(q), e);
    assert Abstract(q').busy == Abstract(q).busy;
  }

  /** Adding appends to the line and rejects exactly when every slot is occupied; the slot
      it fills was neither waiting nor being worked on. That slot takes the job over but for
      its place, and of the other slots nothing changes but the links. */
  lemma {:induction false} AddRefines(q: QueueState, job: Job)
    requires Valid(q)
    ensures var (q', rc) := AddState(q, job);
      && Valid(q')
      && (rc == 0 || rc == -1)
      && (rc == -1 <==> |Members(q.waiting)| + |Members(q.working)| == q.Width())
      && (rc == -1 ==> q' == q.(held := true) && Abstract(q') == Abstract(q))
      && (rc == 0 ==>
            && q'.tail >= 0 && Added(q, q', job, q'.tail)
            && q'.decoding[q'.tail].(index := job.index, next := job.next) == job
            && (forall i: nat | i < q.Width() && i != q'.tail ::
                  q'.decoding[i].(next := q.decoding[i].next) == q.decoding[i])
            && Order(q') == Order(q) + [q'.tail]
            && Abstract(q') == Abstract(q).(line := Abstract(q).line + [job.payload]))
  {
    var (q', rc) := AddState(q, job);
    AllOccupied(q);
    AddSlots(q, job);
    if rc == 0 {
      AddThreads(q, q', job, q'.tail);
      AddAbstract(q, q', job, q'.tail);
    } else {
      assert Order(q') == Order(q);
    }
  }

  /** Two arrays that agree on a line of slots hold the same line of jobs. */
  lemma {:induction false} SamePayloads(d: seq<Job>, d': seq<Job>, w: seq<nat>, e: nat)
    requires e < |d| == |d'| && forall i | i in w :: i < |d|
    requires forall i | i in w :: d'[i].payload == d[i].payload
    ensures Payloads(d', w) == Payloads(d, w)
    ensures Payloads(d', w + [e]) == Payloads(d, w) + [d'[e].payload]
    ensures Payloads(d, [e] + w) == [d[e].payload] + Payloads(d, w)
  {
    assert forall k :: 0 <= k < |w| ==> w[k] in w;
  }

  /** A non-empty queue has its head in range: the range error is never reported. */
  lemma {:induction false} HeadInRange(q: QueueState)
    requires Valid(q) && NonZero(q.waiting)
    ensures Order(q) != [] && 0 <= q.head < q.Width() && q.waiting[q.head]
    ensures Order(q)[0] == q.head
  {
    assert Order(q) != [];
    assert Order(q)[0] in Order(q);
  }

  lemma {:induction false} GetSlots(q: QueueState)
    requires Valid(q) && NonZero(q.waiting)
    ensures 0 <= q.head < q.Width()
    ensures var q' := GetState(q).0;
      && q'.Shaped()
      && q'.waiting == q.waiting[q.head := false]
      && q'.working == q.working[q.head := true]
      && Walk(q'.decoding, q'.head, |Order(q)| - 1) == Order(q)[1..]
  {
    HeadInRange(q);
    SetAndClear(q.waiting, q.head);
    SetAndClear(q.working, q.head);
  }

  /** q' is q after the head slot went from waiting to working. */
  ghost predicate Taken(q: QueueState, q': QueueState)
    requires q.Shaped()
  {
    && q'.Shaped() && q'.decoding == q.decoding && q'.tail == q.tail && q'.held == q.held
    && 0 <= q.head < q.Width() && q.waiting[q.head]
    && q'.waiting == q.waiting[q.head := false]
    && q'.working == q.working[q.head := true]
  }

  lemma {:induction false} TakenThreads(q: QueueState, q': QueueState, w: seq<nat>)
    requires q.Shaped() && Taken(q, q') && Threads(q, w) && w != [] && w[0] == q.head
    requires Walk(q'.decoding, q'.head, |w| - 1) == w[1..]
    ensures Threads(q', w[1..])
  {
    hide Walk;
    var v := w[1..];
    assert w == [q.head] + v;
    assert q.head !in v;
    forall i: nat | i < q.Width()
      ensures q'.waiting[i] <==> i in v
    {
      assert q.waiting[i] <==> i in w;
    }
  }

  lemma {:induction false} GetThreads(q: QueueState, q': QueueState)
    requires Valid(q) && Taken(q, q') && Order(q) != [] && Order(q)[0] == q.head
    requires Walk(q'.decoding, q'.head, |Order(q)| - 1) == Order(q)[1..]
    ensures Valid(q') && Order(q') == Order(q)[1..]
  {
    hide Walk, Threads, Order;
    TakenThreads(q, q', Order(q));
    assert q.Occupied(q.head);
    assert forall i: nat | i < q.Width() :: q'.Occupied(i) ==> q.Occupied(i);
    ThreadsIsOrder(q', Order(q)[1..]);
  }

  lemma {:induction false} GetAbstract(q: QueueState, q': QueueState)
    requires q.Shaped() && Taken(q, q') && Order(q) == [q.head] + Order(q')
    ensures Abstract(q).line != [] && Abstract(q).line[0] == q.decoding[q.head].payload
    ensures Abstract(q') == Fifo(Abstract(q).line[1..], Abstract(q).busy[q.head := Abstract(q).line[0]])
  {
    hide Walk;
    SamePayloads(q.decoding, q'.decoding, Order(q'), q.head);
    assert Abstract(q').busy == Abstract(q).busy[q.head := Abstract(q).line[0]];
  }

  /** Getting takes the front of the line and hands out a slot nobody works on. */
  lemma {:induction false} GetRefines(q: QueueState)
    requires Valid(q)
    ensures NonZero(q.waiting) ==> 0 <= q.head < q.Width()
    ensures var (q', slot) := GetState(q);
      && Valid(q') && q'.decoding == q.decoding && q'.held == q.held
      && (slot.None? <==> Abstract(q).line == [])
      && (slot.None? ==> q' == q)
      && (slot.Some? ==>
            && slot.value < q.Width()
            && q.waiting[slot.value] && slot.value !in Abstract(q).busy
            && Abstract(q).line[0] == q.decoding[slot.value].payload
            && q'.working == q.working[slot.value := true]
            && q'.waiting == q.waiting[slot.value := false]
            && q.decoding[slot.value].index == slot.value
            && Order(q) == [slot.value] + Order(q')
            && Abstract(q') == Fifo(Abstract(q).line[1..],
                                    Abstract(q).busy[slot.value := Abstract(q).line[0]]))
  {
    if NonZero(q.waiting) {
      HeadInRange(q);
      GetSlots(q);
      var q' := GetState(q).0;
      hide Walk, Order, Threads;
      GetThreads(q, q');
      assert q.Occupied(q.head);
      assert Order(q) == [q.head] + Order(q');
      GetAbstract(q, q');
    } else {
      assert forall i | i in Order(q) :: false;
    }
  }

  /** Releasing frees one slot being worked on and touches nothing else. */
  lemma {:induction false} ReleaseRefines(q: QueueState, i: nat)
    requires Valid(q) && i < q.Width() && q.working[i]
    ensures var q' := ReleaseState(q, i);
      && Valid(q') && Order(q') == Order(q) && q'.held == q.held && !q'.Occupied(i)
      && q'.working == q.working[i := false] && q'.waiting == q.waiting
      && q'.decoding == q.decoding
      && Abstract(q') == Abstract(q).(busy := Abstract(q).busy - {i})
  {
    SetAndClear(q.working, i);
    var q' := ReleaseState(q, i);
    assert Order(q') == Order(q);
    assert Abstract(q').busy == Abstract(q).busy - {i};
  }

  lemma {:induction false} RestatusThreads(q: QueueState, q': QueueState)
    requires Valid(q) && |q'.decoding| == |q.decoding| && q' == q.(decoding := q'.decoding)
    requires forall i: nat | i < q.Width() ::
      q'.decoding[i] == q.decoding[i].(status := q'.decoding[i].status)
    ensures Valid(q') && Order(q') == Order(q) && Abstract(q') == Abstract(q)
  {
    ThreadsIsOrder(q, Order(q));
    WalkFrame(q.decoding, q'.decoding, q.head, |Members(q.waiting)|);
    hide Walk, Order;
    assert Abstract(q').line == Abstract(q).line;
    assert Abstract(q').busy == Abstract(q).busy;
  }

  /** A lookup moves no job and frees no slot: it writes the slot's number into the status of
      exactly the occupied slots with the wanted source and output type. */
  lemma {:induction false} ScanRefines(q: QueueState, same: (string, string) -> bool, key: Payload)
    requires Valid(q)
    ensures var q' := ScanState(q, same, key);
      && Valid(q') && Order(q') == Order(q) && q'.held == q.held && Abstract(q') == Abstract(q)
      && q'.waiting == q.waiting && q'.working == q.working && |q'.decoding| == |q.decoding|
      && (forall i: nat | i < q.Width() ::
            && (i in Matches(q, same, key) <==>
                  && (q.waiting[i] || q.working[i])
                  && same(q.decoding[i].payload.sourceId, key.sourceId)
                  && same(q.decoding[i].payload.outputFileType, key.outputFileType))
            && q'.decoding[i] ==
              if i in Matches(q, same, key)
              then q.decoding[i].(status := "Decoding index: " + Decimals.Print(i) + " Working on")
              else q.decoding[i])
  {
    RestatusThreads(q, ScanState(q, same, key));
  }
}
