/** The web client's paged query: it asks for one page after another, gathers the rows, and
    asks again when an answer cannot be parsed. */
module MusicQuery {
  import opened Arithmetic
  import opened Options
  import Decimals

  /** The numbers the URL carries, as text; each is left out when it says nothing. */
  datatype Request = Request(limit: Option<string>, offset: Option<string>)

  /** An answer to the outstanding request: a change of state that is not the end of a
      successful transfer, text that does not parse, or an object without or with rows. */
  datatype Reply<T> = NotReady | Garbled | NoRows | Rows(rows: seq<T>)

  datatype Client<T> = Client(count: nat, results: seq<T>, running: bool, request: Request)

  predicate Numeral(s: Option<string>) {
    s.Some? ==> Decimals.AllDigits(s.value)
  }

  function RequestFor(count: nat, numResults: nat): (r: Request)
    ensures Numeral(r.limit) && Numeral(r.offset)
  {
    if numResults == 0 then Request(None, None)
    else
      var upper := count * numResults;
      Request(Some(Decimals.PrintNat(numResults)), if upper > 0 then Some(Decimals.PrintNat(upper)) else None)
  }

  function Next<T>(c: Client<T>, numResults: nat, reply: Reply<T>): Client<T> {
    match reply
    case NotReady => c
    case Garbled => c.(running := true, request := RequestFor(c.count, numResults))
    case NoRows => c.(running := false)
    case Rows(rows) =>
      var results := c.results + rows;
      if rows == [] || numResults > |rows| || numResults == 0 then c.(results := results, running := false)
      else Client(c.count + 1, results, true, RequestFor(c.count + 1, numResults))
  }

  class Query<T> {
    var count: nat
    var results: seq<T>
    var running: bool
    var request: Request
    const numResults: nat

    ghost function View(): Client<T>
      reads this
    {
      Client(count, results, running, request)
    }

    constructor (numResults: nat)
      ensures this.numResults == numResults && count == 0 && results == [] && !running
    {
      this.numResults := numResults;
      count, results, running, request := 0, [], false, Request(None, None);
    }

    method SetUrl()
      modifies this`request
      ensures request == RequestFor(count, numResults)
    {
      var upper := count * numResults;
      request := Request(None, None);
      if numResults > 0 {
        request := request.(limit := Some(Decimals.PrintNat(numResults)));
        if upper > 0 {
          request := request.(offset := Some(Decimals.PrintNat(upper)));
        }
      }
    }

    method Load()
      modifies this`request, this`running
      ensures running && request == RequestFor(count, numResults)
    {
      running := true;
      SetUrl();
    }

    /** The callback for a change of the request's state. */
    method Process(reply: Reply<T>)
      modifies this
      ensures View() == Next(old(View()), numResults, reply)
    {
      match reply {
        case NotReady => return;
        case Garbled =>
          Load();
          return;
        case _ =>
      }
      var jsonLength := 0;
      if reply.Rows? {
        jsonLength := |reply.rows|;
        results := results + reply.rows;
      }
      if jsonLength == 0 || numResults > jsonLength || numResults == 0 {
        running := false;
      } else {
        count := count + 1;
        Load();
      }
    }
  }

  // ------------------------------------------------------------ whole runs

  /** The server's answer: LIMIT and OFFSET; an offset counts only with a limit. */
  function Page<T>(table: seq<T>, r: Request): seq<T>
    requires Numeral(r.limit) && Numeral(r.offset)
  {
    if r.limit.None? then table
    else
      var from := Min(if r.offset.None? then 0 else Decimals.ReadNat(r.offset.value), |table|);
      table[from..Min(from + Decimals.ReadNat(r.limit.value), |table|)]
  }

  /** How a request may fare: any number of attempts fail before one is answered, with a page of
      rows or with an object that has none under the query's name. */
  datatype Event = Waits | Fails | Answers | Omits

  function Reaction<T>(table: seq<T>, r: Request, e: Event): Reply<T>
    requires Numeral(r.limit) && Numeral(r.offset)
  {
    match e
    case Waits => NotReady
    case Fails => Garbled
    case Answers => Rows(Page(table, r))
    case Omits => NoRows
  }

  function Begun<T>(numResults: nat): Client<T> {
    Client(0, [], true, RequestFor(0, numResults))
  }

  /** Every request is for the current count; once the query has stopped there is none. */
  function Run<T>(table: seq<T>, numResults: nat, events: seq<Event>): (c: Client<T>)
    ensures c.request == RequestFor(c.count, numResults)
    decreases |events|
  {
    if events == [] then Begun(numResults)
    else
      var c := Run(table, numResults, events[..|events| - 1]);
      if c.running then Next(c, numResults, Reaction(table, c.request, events[|events| - 1])) else c
  }

  function Answered(events: seq<Event>): nat {
    if events == [] then 0
    else Answered(events[..|events| - 1]) + if events[|events| - 1] == Answers then 1 else 0
  }

  function Pages(rows: nat, numResults: nat): nat {
    if numResults == 0 then 1 else rows / numResults + 1
  }

  /** The page asked for is the one at count * numResults. */
  lemma {:induction false} PageAt<T>(table: seq<T>, count: nat, numResults: nat)
    ensures var r := RequestFor(count, numResults);
      Page(table, r) ==
        if numResults == 0 then table
        else table[Min(count * numResults, |table|)..Min(count * numResults + numResults, |table|)]
  {
    RequestNumbers(count, numResults);
    hide RequestFor, Decimals.ReadNat, Decimals.AllDigits;
    var r := RequestFor(count, numResults);
    if numResults > 0 {
      hide Page;
      PageFrom(table, r, count * numResults, numResults);
    }
  }

  /** The numbers a request carries are read as they were written, and zeros are left out. */
  lemma {:induction false} RequestNumbers(count: nat, numResults: nat)
    ensures var r := RequestFor(count, numResults);
      && (r.limit.Some? <==> numResults > 0)
      && (r.limit.Some? ==> Decimals.ReadNat(r.limit.value) == numResults)
      && (r.offset.Some? <==> numResults > 0 && count > 0)
      && (numResults > 0 ==> (if r.offset.None? then 0 else Decimals.ReadNat(r.offset.value)) == count * numResults)
  {
    hide Decimals.PrintNat, Decimals.ReadNat, Decimals.AllDigits;
    var upper: nat := count * numResults;
    Decimals.ReadPrintNat(numResults);
    Decimals.ReadPrintNat(upper);
    if count > 0 && numResults > 0 {
      Times(1, count, numResults);
    }
  }

  lemma {:induction false} PageFrom<T>(table: seq<T>, r: Request, upper: nat, size: nat)
    requires Numeral(r.limit) && Numeral(r.offset)
    requires r.limit.Some? ==> Decimals.ReadNat(r.limit.value) == size
    requires (if r.offset.None? then 0 else Decimals.ReadNat(r.offset.value)) == upper
    ensures r.limit.Some? ==> Page(table, r) == table[Min(upper, |table|)..Min(upper + size, |table|)]
  {
    hide Decimals.ReadNat, Decimals.AllDigits;
  }

  /** What holds of the client after k answers. */
  ghost predicate Progress<T>(c: Client<T>, table: seq<T>, numResults: nat, k: nat) {
    var pages := Pages(|table|, numResults);
    && (c.running <==> k < pages)
    && (k < pages ==> c.count == k && c.count * numResults <= |table| && c.results == table[..c.count * numResults])
    && (k >= pages ==> c.count == pages - 1 && c.results == table)
  }

  lemma {:induction false} PageStep(rows: nat, numResults: nat, k: nat)
    requires numResults > 0 && k <= rows / numResults
    ensures k * numResults <= rows
    ensures k < rows / numResults <==> (k + 1) * numResults <= rows
    ensures k == rows / numResults ==> rows < k * numResults + numResults
    ensures (k + 1) * numResults == k * numResults + numResults
  {
    var q := rows / numResults;
    assert q * numResults + rows % numResults == rows;
    Times(k, q, numResults);
    if k < q {
      Times(k + 1, q, numResults);
    }
  }

  lemma {:induction false} AnswerStep<T>(c: Client<T>, table: seq<T>, numResults: nat, k: nat)
    requires c.running && Progress(c, table, numResults, k) && c.request == RequestFor(k, numResults)
    ensures Progress(Next(c, numResults, Rows(Page(table, c.request))), table, numResults, k + 1)
  {
    PageAt(table, k, numResults);
    hide Page, RequestFor, Numeral;
    if numResults > 0 {
      PageStep(|table|, numResults, k);
      var from := k * numResults;
      Joined(table, from, Min(from + numResults, |table|));
    } else {
      assert c.results + table == table;
    }
  }

  lemma {:induction false} Joined<T>(table: seq<T>, from: nat, to: nat)
    requires from <= to <= |table|
    ensures table[..from] + table[from..to] == table[..to]
    ensures to == |table| ==> table[..to] == table
  {
  }

  /** What happens before the first answer without rows. */
  function Heard(events: seq<Event>): (heard: seq<Event>)
    ensures Omits !in heard
    decreases |events|
  {
    if Omits !in events then events
    else
      assert events == events[..|events| - 1] + [events[|events| - 1]];
      Heard(events[..|events| - 1])
  }

  /** At every moment the results are the rows before the page asked for, whatever failed on
      the way; the query stops with the answer number floor(N / p) + 1, or with the first answer
      without rows, exactly then. In the first case it has gathered the whole table in order, in
      the second it keeps what it has. */
  lemma {:induction false} GathersTable<T>(table: seq<T>, numResults: nat, events: seq<Event>)
    ensures var c, n, k := Run(table, numResults, events), |table|, Answered(Heard(events));
      && (c.running <==> k < Pages(n, numResults) && Omits !in events)
      && (k < Pages(n, numResults) ==> c.count == k && c.results == table[..Min(n, k * numResults)])
      && (k >= Pages(n, numResults) ==> c.results == table)
  {
    StopsAtOmission(table, numResults, events);
    ProgressAlways(table, numResults, Heard(events));
    hide Run, RequestFor, Answered, Heard;
  }

  /** An answer without rows stops the query with the results it has, and nothing follows. */
  lemma {:induction false} StopsAtOmission<T>(table: seq<T>, numResults: nat, events: seq<Event>)
    ensures var c, c' := Run(table, numResults, Heard(events)), Run(table, numResults, events);
      c' == if Omits in events then c.(running := false) else c
    decreases |events|
  {
    if Omits in events {
      var front, last := events[..|events| - 1], events[|events| - 1];
      assert events == front + [last];
      StopsAtOmission(table, numResults, front);
      hide RequestFor;
    }
  }

  lemma {:induction false} ProgressAlways<T>(table: seq<T>, numResults: nat, events: seq<Event>)
    requires Omits !in events
    ensures Progress(Run(table, numResults, events), table, numResults, Answered(events))
    decreases |events|
  {
    if events != [] {
      var front, last := events[..|events| - 1], events[|events| - 1];
      ProgressAlways(table, numResults, front);
      var c := Run(table, numResults, front);
      if c.running && last == Answers {
        AnswerStep(c, table, numResults, Answered(front));
      }
    }
  }

  /** Waiting and failed attempts leave no trace: only the number of answers matters, and whether
      one without rows has come. */
  lemma {:induction false} RetriesAreHarmless<T>(table: seq<T>, numResults: nat, events: seq<Event>,
                                              events': seq<Event>)
    requires Answered(Heard(events)) == Answered(Heard(events'))
    requires Omits in events <==> Omits in events'
    ensures Run(table, numResults, events) == Run(table, numResults, events')
  {
    StopsAtOmission(table, numResults, events);
    StopsAtOmission(table, numResults, events');
    ProgressAlways(table, numResults, Heard(events));
    ProgressAlways(table, numResults, Heard(events'));
    hide Run, Pages, RequestFor, Answered, Heard;
  }
}
