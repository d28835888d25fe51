/** The list of error messages that processes share. Appending takes no lock: a process looks
    at the number of errors, later takes a slot by a fetch-and-add, and then writes the three
    fields of its entry one by one, so any number of appends may be interleaved. */
module ErrorLog {

  /** kind is ERROR = 0, DEBUG = 1 or WARN = 2. */
  datatype ErrorMessage = ErrorMessage(kind: int, header: string, message: string)

  const CAPACITY: nat := 1024

  // ------------------------------------------------------------ one process at a time

  class ErrorMessages {
    var numErrors: nat
    const messages: array<ErrorMessage>

    ghost predicate Valid()
      reads this
    {
      messages.Length == CAPACITY && numErrors <= CAPACITY
    }

    ghost function Entries(): (s: seq<ErrorMessage>)
      reads this, messages
      requires Valid()
      ensures |s| == numErrors
    {
      messages[..numErrors]
    }

    constructor ()
      ensures Valid() && fresh(messages) && Entries() == []
    {
      numErrors := 0;
      messages := new ErrorMessage[CAPACITY](_ => EMPTY_ENTRY);
    }

    method Add(kind: int, header: string, message: string) returns (status: int)
      requires Valid()
      modifies this`numErrors, messages
      ensures Valid() && status == if old(numErrors) == 1024 then -1 else 0
      ensures Entries() == old(Entries()) + if status == 0 then [ErrorMessage(kind, header, message)] else []
    {
      if numErrors >= CAPACITY {
        return -1;
      }
      var errorNum := numErrors;
      numErrors := numErrors + 1;
      messages[errorNum] := messages[errorNum].(kind := kind);
      messages[errorNum] := messages[errorNum].(header := header);
      messages[errorNum] := messages[errorNum].(message := message);
      status := 0;
    }

    /** Append another list's entries. Nothing checks for room: `overrun` is a write behind the
        end of the table, where the model stops with the table full. */
    method Duplicate(other: ErrorMessages) returns (overrun: bool)
      requires Valid() && other.Valid() && other != this && other.messages != messages
      modifies this`numErrors, messages
      ensures Valid() && (overrun <==> old(numErrors) + other.numErrors > 1024)
      ensures var all := old(Entries()) + other.Entries();
        Entries() == if overrun then all[..1024] else all
    {
      var offset := numErrors;
      for i := 0 to other.numErrors
        invariant numErrors == offset + i && Valid()
        invariant messages[..offset] == old(messages[..offset])
        invariant messages[offset..offset + i] == other.messages[..i]
      {
        var errorNum := i + offset;
        if errorNum >= messages.Length {
          assert Entries() == old(Entries()) + other.messages[..i];
          return true;
        }
        messages[errorNum] := messages[errorNum].(kind := other.messages[i].kind);
        messages[errorNum] := messages[errorNum].(header := other.messages[i].header);
        messages[errorNum] := messages[errorNum].(message := other.messages[i].message);
        numErrors := numErrors + 1;
      }
      overrun := false;
    }
  }

  // ------------------------------------------------------------ many at once

  const EMPTY_ENTRY := ErrorMessage(0, "", "")

  /** Where an adder stands: about to take a slot, or with one whose type, header and
      message are still to be written in that order. */
  datatype Adder =
    | Idle
    | Checked(m: ErrorMessage)
    | Claimed(m: ErrorMessage, slot: nat)
    | Typed(m: ErrorMessage, slot: nat)
    | Headed(m: ErrorMessage, slot: nat)
  {
    predicate Holds(k: nat) {
      !Idle? && !Checked? && slot == k
    }
  }

  datatype Event = Call(i: nat, m: ErrorMessage) | Advance(i: nat)

  /** `messages` is keyed by slot number, also past the end of the table. `claimed` and
      `finished` are the run's history: the messages in the order their slots were taken,
      and the slots written completely. */
  datatype State = State(numErrors: nat, messages: map<nat, ErrorMessage>, adders: seq<Adder>,
                         claimed: seq<ErrorMessage>, finished: set<nat>)

  function Start(n: nat): State {
    State(0, map[], seq(n, _ => Idle), [], {})
  }

  function Entry(s: State, k: nat): ErrorMessage {
    if k in s.messages then s.messages[k] else EMPTY_ENTRY
  }

  /** One atomic action. A call that finds the table full returns at once; a busy adder
      cannot call. */
  function Do(s: State, e: Event): State {
    if e.i >= |s.adders| then s
    else
      match e
      case Call(i, m) =>
        if s.adders[i].Idle? && s.numErrors < CAPACITY then s.(adders := s.adders[i := Checked(m)]) else s
      case Advance(i) =>
        match s.adders[i]
        case Idle => s
        case Checked(m) =>
          s.(numErrors := s.numErrors + 1, adders := s.adders[i := Claimed(m, s.numErrors)], claimed := s.claimed + [m])
        case Claimed(m, k) =>
          s.(messages := s.messages[k := Entry(s, k).(kind := m.kind)], adders := s.adders[i := Typed(m, k)])
        case Typed(m, k) =>
          s.(messages := s.messages[k := Entry(s, k).(header := m.header)], adders := s.adders[i := Headed(m, k)])
        case Headed(m, k) =>
          s.(messages := s.messages[k := Entry(s, k).(message := m.message)], adders := s.adders[i := Idle],
             finished := s.finished + {k})
  }

  function Run(s: State, events: seq<Event>): State
    decreases |events|
  {
    if events == [] then s else Run(Do(s, events[0]), events[1..])
  }

  function Waiting(adders: seq<Adder>): nat {
    if adders == [] then 0 else (if adders[0].Checked? then 1 else 0) + Waiting(adders[1..])
  }

  // ------------------------------------------------------------ what every run keeps

  ghost predicate Written(s: State, a: Adder)
    requires !a.Idle? && !a.Checked?
  {
    && a.slot < |s.claimed| && s.claimed[a.slot] == a.m && a.slot !in s.finished
    && (a.Typed? || a.Headed? ==> Entry(s, a.slot).kind == a.m.kind)
    && (a.Headed? ==> Entry(s, a.slot).header == a.m.header)
  }

  ghost predicate Taken(s: State, k: nat) {
    k in s.finished || exists i :: 0 <= i < |s.adders| && s.adders[i].Holds(k)
  }

  /** The slots taken are 0 to numErrors - 1, each by one adder; what is finished holds the
      message that claimed it. */
  ghost predicate Sound(s: State) {
    && |s.claimed| == s.numErrors
    && (forall k :: k in s.finished ==> k < s.numErrors && Entry(s, k) == s.claimed[k])
    && (forall i :: 0 <= i < |s.adders| ==> s.adders[i].Idle? || s.adders[i].Checked? || Written(s, s.adders[i]))
    && (forall i, j, k: nat :: 0 <= i < j < |s.adders| && s.adders[i].Holds(k) ==> !s.adders[j].Holds(k))
    && (forall k :: 0 <= k < s.numErrors ==> Taken(s, k))
  }

  /** Adders that have seen room but not yet taken a slot may still take it. */
  predicate Bounded(s: State) {
    s.numErrors + Waiting(s.adders) <= CAPACITY - 1 + |s.adders|
  }

  lemma {:induction false} WaitingAfter(adders: seq<Adder>, i: nat, a: Adder)
    requires i < |adders|
    ensures Waiting(adders[i := a]) + (if adders[i].Checked? then 1 else 0)
         == Waiting(adders) + (if a.Checked? then 1 else 0)
    ensures Waiting(adders) <= |adders|
  {
    if i == 0 {
      assert adders[i := a][1..] == adders[1..];
      WaitingAtMost(adders[1..]);
    } else {
      assert adders[i := a][1..] == adders[1..][i - 1 := a];
      WaitingAfter(adders[1..], i - 1, a);
    }
  }

  lemma {:induction false} WaitingAtMost(adders: seq<Adder>)
    ensures Waiting(adders) <= |adders|
  {
    if adders != [] {
      WaitingAtMost(adders[1..]);
    }
  }

  lemma {:induction false} StepKeepsBound(s: State, e: Event)
    requires Bounded(s)
    ensures Bounded(Do(s, e)) && |Do(s, e).adders| == |s.adders|
  {
    if e.i < |s.adders| {
      var t := Do(s, e);
      WaitingAfter(s.adders, e.i, t.adders[e.i]);
      WaitingAtMost(t.adders);
      assert s.adders[e.i := s.adders[e.i]] == s.adders;
    }
  }

  lemma {:induction false} StepKeepsTaken(s: State, e: Event, k: nat)
    requires Sound(s) && k < Do(s, e).numErrors
    ensures Taken(Do(s, e), k)
  {
    var t := Do(s, e);
    if k == s.numErrors {
      assert t.adders[e.i].Holds(k);
    } else if k !in s.finished {
      assert Taken(s, k);
      var i :| 0 <= i < |s.adders| && s.adders[i].Holds(k);
      assert t.adders[i].Holds(k) || k in t.finished;
    }
  }

  lemma {:induction false} StepKeepsSound(s: State, e: Event)
    requires Sound(s)
    ensures Sound(Do(s, e))
  {
    var t := Do(s, e);
    forall k | 0 <= k < t.numErrors
      ensures Taken(t, k)
    {
      StepKeepsTaken(s, e, k);
    }
    if e.i < |s.adders| {
      forall i | 0 <= i < |s.adders|
        ensures t.adders[i].Idle? || t.adders[i].Checked? || Written(t, t.adders[i])
      {
        StepKeepsWritten(s, e, i);
      }
      forall k | k in t.finished
        ensures k < t.numErrors && Entry(t, k) == t.claimed[k]
      {
        StepKeepsFinished(s, e, k);
      }
      forall i, j, k: nat | 0 <= i < j < |s.adders| && t.adders[i].Holds(k)
        ensures !t.adders[j].Holds(k)
      {
        StepKeepsApart(s, e, i, j, k);
      }
    }
  }

  lemma {:induction false} StepKeepsWritten(s: State, e: Event, i: nat)
    requires Sound(s) && i < |s.adders|
    ensures var a := Do(s, e).adders[i]; a.Idle? || a.Checked? || Written(Do(s, e), a)
  {
    if e.i < |s.adders| && i != e.i && !s.adders[i].Idle? && !s.adders[i].Checked? {
      assert Written(s, s.adders[i]) && s.adders[i].Holds(s.adders[i].slot);
      assert !s.adders[e.i].Holds(s.adders[i].slot);
    }
  }

  lemma {:induction false} StepKeepsFinished(s: State, e: Event, k: nat)
    requires Sound(s) && k in Do(s, e).finished
    ensures k < Do(s, e).numErrors && Entry(Do(s, e), k) == Do(s, e).claimed[k]
    ensures k in s.finished ==> Entry(Do(s, e), k) == Entry(s, k)
  {
    if e.i < |s.adders| && !s.adders[e.i].Idle? && !s.adders[e.i].Checked? {
      assert Written(s, s.adders[e.i]);
    }
  }

  lemma {:induction false} StepKeepsApart(s: State, e: Event, i: nat, j: nat, k: nat)
    requires Sound(s) && i < j < |s.adders| && Do(s, e).adders[i].Holds(k)
    ensures !Do(s, e).adders[j].Holds(k)
  {
    var a, b := s.adders[i], s.adders[j];
    assert a.Idle? || a.Checked? || Written(s, a);
    assert b.Idle? || b.Checked? || Written(s, b);
    assert a.Holds(k) ==> !b.Holds(k);
  }

  lemma {:induction false} RunKeeps(s: State, events: seq<Event>)
    requires Sound(s) && Bounded(s)
    ensures Sound(Run(s, events)) && Bounded(Run(s, events)) && |Run(s, events).adders| == |s.adders|
    decreases |events|
  {
    if events != [] {
      StepKeepsSound(s, events[0]);
      StepKeepsBound(s, events[0]);
      RunKeeps(Do(s, events[0]), events[1..]);
    }
  }

  lemma {:induction false} StartSound(n: nat)
    ensures Sound(Start(n)) && Bounded(Start(n)) && Waiting(Start(n).adders) == 0
  {
    NoneWaiting(Start(n).adders);
  }

  lemma {:induction false} NoneWaiting(adders: seq<Adder>)
    requires forall i :: 0 <= i < |adders| ==> adders[i] == Idle
    ensures Waiting(adders) == 0
  {
    if adders != [] {
      NoneWaiting(adders[1..]);
    }
  }

  /** In every run no two adders have the same slot, the slots taken are exactly those below
      numErrors, and with n >= 1 adders numErrors never exceeds 1023 + n. */
  lemma {:induction false} SlotsAreTakenOnce(n: nat, events: seq<Event>)
    ensures var s := Run(Start(n), events);
      && (forall i, j, k: nat :: 0 <= i < j < |s.adders| && s.adders[i].Holds(k) ==> !s.adders[j].Holds(k))
      && (forall i, k: nat :: 0 <= i < |s.adders| && s.adders[i].Holds(k) ==> k !in s.finished)
      && (forall k: nat :: k < s.numErrors <==> Taken(s, k))
      && (n >= 1 ==> s.numErrors <= 1023 + n)
  {
    StartSound(n);
    RunKeeps(Start(n), events);
    var s := Run(Start(n), events);
    forall i, k: nat | 0 <= i < |s.adders| && s.adders[i].Holds(k)
      ensures k !in s.finished && k < s.numErrors
    {
      assert Written(s, s.adders[i]);
    }
  }

  /** A finished entry is the message that claimed the slot, and nothing overwrites it. */
  lemma {:induction false} FinishedEntriesStay(n: nat, before: seq<Event>, after: seq<Event>, k: nat)
    requires k in Run(Start(n), before).finished
    ensures var s, t := Run(Start(n), before), Run(Run(Start(n), before), after);
      && k < |s.claimed| && Entry(s, k) == s.claimed[k]
      && k in t.finished && Entry(t, k) == Entry(s, k)
  {
    StartSound(n);
    RunKeeps(Start(n), before);
    FinishedStay(Run(Start(n), before), after, k);
  }

  lemma {:induction false} FinishedStay(s: State, events: seq<Event>, k: nat)
    requires Sound(s) && k in s.finished
    ensures k in Run(s, events).finished && Entry(Run(s, events), k) == Entry(s, k)
    decreases |events|
  {
    if events != [] {
      StepKeepsSound(s, events[0]);
      StepKeepsFinished(s, events[0], k);
      FinishedStay(Do(s, events[0]), events[1..], k);
    }
  }

  /** Once no append is under way the list holds the messages that took a slot, whole and
      in the order they took it. */
  lemma {:induction false} QuietListIsWhole(n: nat, events: seq<Event>)
    requires forall i :: 0 <= i < |Run(Start(n), events).adders| ==> Run(Start(n), events).adders[i].Idle?
    ensures var s := Run(Start(n), events);
      |s.claimed| == s.numErrors && forall k :: 0 <= k < s.numErrors ==> Entry(s, k) == s.claimed[k]
  {
    StartSound(n);
    RunKeeps(Start(n), events);
    var s := Run(Start(n), events);
    forall k | 0 <= k < s.numErrors
      ensures Entry(s, k) == s.claimed[k]
    {
      assert Taken(s, k);
    }
  }

  // ------------------------------------------------------------ the bound is exact

  function OneAppend(i: nat, m: ErrorMessage): seq<Event> {
    [Call(i, m), Advance(i), Advance(i), Advance(i), Advance(i)]
  }

  /** An append that runs undisturbed does what it does for a single process. */
  lemma {:induction false} UndisturbedAppend(s: State, i: nat, m: ErrorMessage)
    requires i < |s.adders| && s.adders[i].Idle? && s.numErrors < CAPACITY
    ensures Run(s, OneAppend(i, m)) ==
      State(s.numErrors + 1, s.messages[s.numErrors := m], s.adders, s.claimed + [m], s.finished + {s.numErrors})
  {
    var k := s.numErrors;
    var s1 := Do(s, Call(i, m));
    var s2 := Do(s1, Advance(i));
    var s3 := Do(s2, Advance(i));
    var s4 := Do(s3, Advance(i));
    var s5 := Do(s4, Advance(i));
    var a := Advance(i);
    assert OneAppend(i, m)[1..] == [a, a, a, a] && [a, a, a, a][1..] == [a, a, a] && [a, a, a][1..] == [a, a];
    assert [a, a][1..] == [a] && [a][1..] == [];
    Chain4(s1, a);
    assert s5.adders == s.adders;
    assert s5.messages == s.messages[k := m];
  }

  lemma {:induction false} Chain4(s: State, a: Event)
    ensures Run(s, [a, a, a, a]) == Do(Do(Do(Do(s, a), a), a), a)
  {
    assert [a, a, a, a][1..] == [a, a, a] && [a, a, a][1..] == [a, a] && [a, a][1..] == [a] && [a][1..] == [];
    Chain2(Do(Do(s, a), a), a);
    assert Run(Do(s, a), [a, a, a]) == Run(Do(Do(s, a), a), [a, a]);
  }

  lemma {:induction false} Chain2(s: State, a: Event)
    ensures Run(s, [a, a]) == Do(Do(s, a), a)
  {
    assert [a, a][1..] == [a] && [a][1..] == [];
    assert Run(Do(s, a), [a]) == Run(Do(Do(s, a), a), []);
  }

  lemma {:induction false} RunAppend(s: State, xs: seq<Event>, ys: seq<Event>)
    ensures Run(s, xs + ys) == Run(Run(s, xs), ys)
    decreases |xs|
  {
    if xs == [] {
      assert xs + ys == ys;
    } else {
      assert (xs + ys)[1..] == xs[1..] + ys;
      RunAppend(Do(s, xs[0]), xs[1..], ys);
    }
  }

  function Appends(k: nat): seq<Event> {
    if k == 0 then [] else Appends(k - 1) + OneAppend(0, EMPTY_ENTRY)
  }

  lemma {:induction false} Filled(n: nat, k: nat)
    requires n >= 1 && k <= CAPACITY
    ensures var s := Run(Start(n), Appends(k)); s.numErrors == k && s.adders == Start(n).adders
  {
    if k > 0 {
      Filled(n, k - 1);
      RunAppend(Start(n), Appends(k - 1), OneAppend(0, EMPTY_ENTRY));
      UndisturbedAppend(Run(Start(n), Appends(k - 1)), 0, EMPTY_ENTRY);
    }
  }

  /** Every adder looks, then every adder takes a slot. */
  function Calls(k: nat): seq<Event> {
    if k == 0 then [] else Calls(k - 1) + [Call(k - 1, EMPTY_ENTRY)]
  }

  function Claims(k: nat): seq<Event> {
    if k == 0 then [] else Claims(k - 1) + [Advance(k - 1)]
  }

  lemma {:induction false} RunLast(s: State, events: seq<Event>, e: Event)
    ensures Run(s, events + [e]) == Do(Run(s, events), e)
  {
    RunAppend(s, events, [e]);
    assert [e][1..] == [];
    assert Run(Run(s, events), [e]) == Run(Do(Run(s, events), e), []);
  }

  lemma {:induction false} AllCall(s: State, k: nat)
    requires k <= |s.adders| && s.numErrors < CAPACITY
    requires forall i :: 0 <= i < |s.adders| ==> s.adders[i] == Idle
    ensures var t := Run(s, Calls(k));
      && t.numErrors == s.numErrors && |t.adders| == |s.adders|
      && (forall i :: 0 <= i < |s.adders| ==> t.adders[i] == if i < k then Checked(EMPTY_ENTRY) else Idle)
  {
    if k > 0 {
      AllCall(s, k - 1);
      RunLast(s, Calls(k - 1), Call(k - 1, EMPTY_ENTRY));
    }
  }

  lemma {:induction false} AllClaim(s: State, k: nat)
    requires k <= |s.adders|
    requires forall i :: 0 <= i < |s.adders| ==> s.adders[i] == Checked(EMPTY_ENTRY)
    ensures var t := Run(s, Claims(k));
      && t.numErrors == s.numErrors + k && |t.adders| == |s.adders|
      && (forall i :: k <= i < |s.adders| ==> t.adders[i] == Checked(EMPTY_ENTRY))
  {
    if k > 0 {
      AllClaim(s, k - 1);
      RunLast(s, Claims(k - 1), Advance(k - 1));
    }
  }

  function CrowdedRun(n: nat): seq<Event> {
    Appends(CAPACITY - 1) + Calls(n) + Claims(n)
  }

  /** The bound on numErrors is reached: n adders can all see the last free slot. */
  lemma {:induction false} BoundIsReached(n: nat)
    requires n >= 1
    ensures Run(Start(n), CrowdedRun(n)).numErrors == 1023 + n
  {
    var k := CAPACITY - 1;
    Filled(n, k);
    RunAppend(Start(n), Appends(k) + Calls(n), Claims(n));
    RunAppend(Start(n), Appends(k), Calls(n));
    AllCall(Run(Start(n), Appends(k)), n);
    AllClaim(Run(Start(n), Appends(k) + Calls(n)), n);
  }

  /** Every slot taken lies in the table, in every run, exactly when there is at most one adder. */
  lemma {:induction false} TableSufficesExactlyForOneAdder(n: nat)
    ensures (forall events :: Run(Start(n), events).numErrors <= 1024) <==> n <= 1
  {
    if n >= 2 {
      BoundIsReached(n);
    } else {
      forall events
        ensures Run(Start(n), events).numErrors <= 1024
      {
        StartSound(n);
        RunKeeps(Start(n), events);
      }
    }
  }
}
