/** How a request's URI is taken apart: "/" indexer "/" command ["?" parameters]. */
module Uri {
  import opened Options
  import opened Sequences
  import opened Strings

  predicate Separator(c: char) {
    c == '&' || c == ';'
  }

  predicate SeparatorFree(s: string) {
    forall i :: 0 <= i < |s| ==> !Separator(s[i])
  }

  /** strcspn(s, "&;") */
  function Span(s: string): (k: nat)
    ensures k <= |s| && (k < |s| ==> Separator(s[k])) && forall j :: 0 <= j < k ==> !Separator(s[j])
  {
    if s == "" || Separator(s[0]) then 0 else 1 + Span(s[1..])
  }

  lemma {:induction false} SpanAt(s: string, k: nat)
    requires k <= |s| && (k < |s| ==> Separator(s[k])) && forall j :: 0 <= j < k ==> !Separator(s[j])
    ensures Span(s) == k
  {
    hide *;
  }

  // ------------------------------------------------------------ parameters

  datatype Parameter = Parameter(name: string, value: string)

  /** The text between separators, with the empty pieces. */
  function Segments(q: string): seq<string> {
    var n := Span(q);
    if n == |q| then [q] else [q[..n]] + Segments(q[n + 1..])
  }

  function Separators(q: string): string {
    var n := Span(q);
    if n == |q| then "" else [q[n]] + Separators(q[n + 1..])
  }

  /** A segment is a name and what follows its first "=". */
  function Cut(segment: string): Parameter {
    var e := Find(segment, '=');
    if e == |segment| then Parameter(segment, "") else Parameter(segment[..e], segment[e + 1..])
  }

  function CutAll(segments: seq<string>): seq<Parameter> {
    if segments == [] then []
    else (if segments[0] == "" then [] else [Cut(segments[0])]) + CutAll(segments[1..])
  }

  /** The parameters of a query, in order. */
  function Parameters(q: string): seq<Parameter> {
    CutAll(Segments(q))
  }

  /** The parameters of a URI, if it has a query. */
  function QueryParameters(uri: string): Option<seq<Parameter>> {
    var queryStart := Find(uri, '?');
    if queryStart == |uri| then None else Some(Parameters(uri[queryStart + 1..]))
  }

  lemma {:induction false} ParametersStep(q: string)
    ensures var n := Span(q);
      Parameters(q) == (if n == 0 then [] else [Cut(q[..n])]) + if n == |q| then [] else Parameters(q[n + 1..])
  {
    hide Span, Cut;
    var n := Span(q);
    if n == |q| {
      assert q[..n] == q;
      CutOne(q);
    } else {
      CutFirst(q[..n], Segments(q[n + 1..]));
    }
  }

  /** A segment without "=" is a name with an empty value; otherwise its first "=" parts them. */
  lemma {:induction false} CutParts(segment: string, value: string)
    requires '=' !in segment
    ensures Cut(segment) == Parameter(segment, "")
    ensures Cut(segment + "=" + value) == Parameter(segment, value)
  {
    var t, n := segment + "=" + value, |segment|;
    assert t[n] == '=' && t[..n] == segment && t[n + 1..] == value;
    FindAt(t, '=', n);
    FindAt(segment, '=', n);
  }

  lemma {:induction false} CutFirst(first: string, rest: seq<string>)
    ensures CutAll([first] + rest) == (if first == "" then [] else [Cut(first)]) + CutAll(rest)
  {
    hide Cut;
    assert ([first] + rest)[1..] == rest;
  }

  lemma {:induction false} CutOne(first: string)
    ensures CutAll([first]) == if first == "" then [] else [Cut(first)]
  {
    CutFirst(first, []);
    hide Cut;
    assert [first] + [] == [first];
  }

  /** What is still to be found from position p on. */
  function Rest(uri: string, p: nat): seq<Parameter> {
    if p <= |uri| then Parameters(uri[p..]) else []
  }

  lemma {:induction false} RestStep(uri: string, p: nat)
    requires p < |uri|
    ensures var n := Span(uri[p..]);
      Rest(uri, p) == (if n == 0 then [] else [Cut(uri[p..p + n])]) + Rest(uri, p + n + 1)
  {
    ParametersStep(uri[p..]);
    hide Span, Cut, Parameters;
    var n := Span(uri[p..]);
    assert uri[p..][..n] == uri[p..p + n];
    if n < |uri| - p {
      assert uri[p..][n + 1..] == uri[p + n + 1..];
    }
  }

  lemma {:induction false} RestEnd(uri: string, p: nat)
    requires p >= |uri|
    ensures Rest(uri, p) == []
  {
    if p == |uri| {
      ParametersStep("");
      assert uri[p..] == "";
    }
  }

  /** get_parameters_from_uri: each parameter goes to the table as it is found. */
  method GetParameters(uri: string) returns (parameterStrings: Option<seq<Parameter>>)
    ensures parameterStrings == QueryParameters(uri)
  {
    hide Find, Span, Parameters, Rest;
    var queryStart := Find(uri, '?');
    if queryStart == |uri| {
      return None;
    }
    assert Rest(uri, queryStart + 1) == Parameters(uri[queryStart + 1..]) by { RestIs(uri, queryStart + 1); }
    var table, p := [], queryStart + 1;
    while p < |uri|
      invariant queryStart + 1 <= p <= |uri| + 1
      invariant Rest(uri, queryStart + 1) == table + Rest(uri, p)
      decreases |uri| + 1 - p
    {
      var paramLen := Span(uri[p..]);
      RestStep(uri, p);
      if paramLen == 0 {
        p := p + 1;
        continue;
      }
      var one := CutAt(uri, p, paramLen);
      Associates(table, [one], Rest(uri, p + paramLen + 1));
      table := table + [one];
      p := p + paramLen;
      p := p + 1;
    }
    RestEnd(uri, p);
    assert table + [] == table;
    parameterStrings := Some(table);
  }

  lemma {:induction false} RestIs(uri: string, p: nat)
    requires p <= |uri|
    ensures Rest(uri, p) == Parameters(uri[p..])
  {
  }

  /** Name and value of the segment of the given length at p. */
  method CutAt(uri: string, p: nat, paramLen: nat) returns (one: Parameter)
    requires p + paramLen <= |uri|
    ensures one == Cut(uri[p..p + paramLen])
  {
    hide Find;
    var equal := Find(uri[p..p + paramLen], '=');
    var name, value := uri[p..p + equal], "";
    if paramLen - equal != 0 {
      value := uri[p + equal + 1..p + paramLen];
    }
    one := Parameter(name, value);
    ghost var segment := uri[p..p + paramLen];
    assert segment[..equal] == name;
    assert equal < paramLen ==> segment[equal + 1..] == value;
    assert equal == paramLen ==> segment == name;
  }

  // ------------------------------------------------------------ what a split is

  /** The segments with a separator between each and the next. */
  function Interleave(segments: seq<string>, separators: string): string
    requires |segments| == |separators| + 1
  {
    if separators == "" then segments[0]
    else segments[0] + [separators[0]] + Interleave(segments[1..], separators[1..])
  }

  predicate SplitOk(segments: seq<string>, separators: string) {
    && |segments| == |separators| + 1
    && (forall i :: 0 <= i < |segments| ==> SeparatorFree(segments[i]))
    && forall i :: 0 <= i < |separators| ==> Separator(separators[i])
  }

  lemma {:induction false} InterleaveMore(first: string, c: char, segments: seq<string>, separators: string)
    requires SplitOk(segments, separators) && SeparatorFree(first) && Separator(c)
    ensures SplitOk([first] + segments, [c] + separators)
    ensures Interleave([first] + segments, [c] + separators) == first + [c] + Interleave(segments, separators)
  {
    hide SeparatorFree, Separator;
    assert ([first] + segments)[1..] == segments && ([c] + separators)[1..] == separators;
  }

  lemma {:induction false} SegmentsFound(q: string)
    ensures SplitOk(Segments(q), Separators(q)) && Interleave(Segments(q), Separators(q)) == q
  {
    hide Span;
    var n := Span(q);
    if n < |q| {
      var rest := q[n + 1..];
      SegmentsFound(rest);
      InterleaveMore(q[..n], q[n], Segments(rest), Separators(rest));
      hide *;
      assert q == q[..n] + [q[n]] + rest;
    }
  }

  lemma {:induction false} SegmentsUnique(segments: seq<string>, separators: string)
    requires SplitOk(segments, separators)
    ensures Segments(Interleave(segments, separators)) == segments
    ensures Separators(Interleave(segments, separators)) == separators
    decreases |separators|
  {
    if separators == "" {
      SegmentLast(segments[0]);
      assert segments == [segments[0]];
    } else {
      var rest := Interleave(segments[1..], separators[1..]);
      assert Interleave(segments, separators) == segments[0] + [separators[0]] + rest;
      SegmentsUnique(segments[1..], separators[1..]);
      hide Segments, Separators, Interleave, Separator, SeparatorFree;
      SegmentFirst(segments[0], separators[0], rest);
      HeadAndTail(segments);
      HeadAndTail(separators);
    }
  }

  lemma {:induction false} SegmentLast(first: string)
    requires SeparatorFree(first)
    ensures Segments(first) == [first] && Separators(first) == ""
  {
    SpanAt(first, |first|);
  }

  lemma {:induction false} SegmentFirst(first: string, c: char, rest: string)
    requires SeparatorFree(first) && Separator(c)
    ensures Segments(first + [c] + rest) == [first] + Segments(rest)
    ensures Separators(first + [c] + rest) == [c] + Separators(rest)
  {
    var q, n := first + [c] + rest, |first|;
    SpanAt(q, n);
    hide Span, Separator;
    assert q[..n] == first && q[n + 1..] == rest;
  }

  /** The segments of a query are the only way to write it as pieces without "&" and ";", with one
      of the two between each and the next. */
  lemma {:induction false} SegmentsAreTheSplit(q: string, segments: seq<string>, separators: string)
    requires |segments| == |separators| + 1
    requires forall i :: 0 <= i < |segments| ==> '&' !in segments[i] && ';' !in segments[i]
    requires forall i :: 0 <= i < |separators| ==> separators[i] == '&' || separators[i] == ';'
    ensures Interleave(segments, separators) == q <==> segments == Segments(q) && separators == Separators(q)
  {
    SegmentsFound(q);
    assert SplitOk(segments, separators);
    if Interleave(segments, separators) == q {
      SegmentsUnique(segments, separators);
    }
  }

  // ------------------------------------------------------------ reading back

  /** A parameter that needs no encoding: see section 3.4 of RFC 3986 for what a query may hold. */
  predicate Clean(p: Parameter) {
    '=' !in p.name && '&' !in p.name && ';' !in p.name && '&' !in p.value && ';' !in p.value
  }

  predicate AllClean(ps: seq<Parameter>) {
    forall i :: 0 <= i < |ps| ==> Clean(ps[i])
  }

  function ParameterText(p: Parameter): string {
    p.name + "=" + p.value
  }

  function Print(ps: seq<Parameter>): string {
    if ps == [] then ""
    else if |ps| == 1 then ParameterText(ps[0])
    else ParameterText(ps[0]) + "&" + Print(ps[1..])
  }

  lemma {:induction false} CutText(p: Parameter)
    requires '=' !in p.name
    ensures Cut(ParameterText(p)) == p && ParameterText(p) != ""
  {
    CutParts(p.name, p.value);
  }

  /** The text before the first "&" or ";" is one parameter, or none when it is empty, and then
      come those of the text behind it. */
  lemma {:induction false} ParametersOf(first: string, c: char, rest: string)
    requires '&' !in first && ';' !in first && (c == '&' || c == ';')
    ensures Parameters(first + [c] + rest) == (if first == "" then [] else [Cut(first)]) + Parameters(rest)
    ensures Parameters(first) == if first == "" then [] else [Cut(first)]
  {
    var q, n := first + [c] + rest, |first|;
    ParametersStep(q);
    ParametersStep(first);
    SpanAt(first, n);
    SpanAt(q, n);
    hide Span, Cut, Parameters;
    assert q[..n] == first && q[n + 1..] == rest && first[..n] == first;
  }

  lemma {:induction false} TextIsOneSegment(p: Parameter)
    requires Clean(p)
    ensures '&' !in ParameterText(p) && ';' !in ParameterText(p) && ParameterText(p) != "" && Cut(ParameterText(p)) == p
  {
    CutText(p);
  }

  lemma {:induction false} PrintParses(ps: seq<Parameter>)
    requires AllClean(ps)
    ensures Parameters(Print(ps)) == ps
  {
    if ps == [] {
      ParametersStep("");
    } else {
      assert Clean(ps[0]);
      TextIsOneSegment(ps[0]);
      ParametersOf(ParameterText(ps[0]), '&', Print(ps[1..]));
      if |ps| > 1 {
        PrintParses(ps[1..]);
      }
      hide Parameters, ParameterText, Cut, Clean;
      assert ps == [ps[0]] + ps[1..];
    }
  }

  lemma {:induction false} CutIsClean(segment: string)
    requires SeparatorFree(segment)
    ensures Clean(Cut(segment))
  {
    hide Find;
    assert forall i :: 0 <= i < |segment| ==> !Separator(segment[i]);
  }

  lemma {:induction false} ParsedIsClean(segments: seq<string>)
    requires forall i :: 0 <= i < |segments| ==> SeparatorFree(segments[i])
    ensures AllClean(CutAll(segments))
  {
    if segments != [] {
      ParsedIsClean(segments[1..]);
      CutIsClean(segments[0]);
    }
  }

  /** Printed parameters read back exactly when no name holds "=" and nothing a separator. */
  lemma {:induction false} ParametersReadBack(ps: seq<Parameter>)
    ensures Parameters(Print(ps)) == ps <==> AllClean(ps)
  {
    if AllClean(ps) {
      PrintParses(ps);
    } else {
      SegmentsFound(Print(ps));
      ParsedIsClean(Segments(Print(ps)));
    }
  }

  // ------------------------------------------------------------ the whole URI

  /** What is copied as the command: nothing when there is no second slash; a negative
      number of bytes when the "?" comes before that slash. */
  datatype CommandPart = Missing | Negative | Command(text: string)

  /** get_indexer_from_uri, for a URI whose first character is there. */
  function GetIndexer(uri: string): Option<string>
    requires uri != ""
  {
    var slash := 1 + Find(uri[1..], '/');
    if slash > 1 then Some(uri[1..slash]) else None
  }

  function GetCommand(uri: string): CommandPart
    requires uri != ""
  {
    var slash := 1 + Find(uri[1..], '/');
    if slash == |uri| then Missing
    else
      var question := 1 + Find(uri[1..], '?');
      if question < slash + 1 then Negative else Command(uri[slash + 1..question])
  }

  function UriText(indexer: string, command: string, query: Option<string>): string {
    "/" + (indexer + ("/" + (command + if query.Some? then "?" + query.value else "")))
  }

  /** The request as the handlers see it; a part that was not found stays NULL. */
  class Input {
    var uri: Option<string>
    var indexerString: Option<string>
    var commandString: Option<string>
    var parameterStrings: Option<seq<Parameter>>
    /** A copy of a negative number of bytes was asked for, or a URI without a first character
        was searched behind its end. */
    var failed: bool

    constructor (uri: Option<string>)
      ensures this.uri == uri
      ensures uri.None? ==> indexerString == commandString == None && parameterStrings == None && !failed
      ensures uri == Some("") ==> failed
      ensures uri.Some? && uri.value != "" ==>
        && indexerString == GetIndexer(uri.value) && failed == GetCommand(uri.value).Negative?
        && commandString == (match GetCommand(uri.value) case Command(c) => Some(c) case _ => None)
        && (!failed ==> parameterStrings == QueryParameters(uri.value))
    {
      this.uri := uri;
      indexerString, commandString, parameterStrings, failed := None, None, None, false;
      new;
      hide GetIndexer, GetCommand, QueryParameters;
      if uri == Some("") {
        failed := true;
        return;
      }
      if uri.Some? {
        indexerString := GetIndexer(uri.value);
        match GetCommand(uri.value)
        case Missing =>
        case Negative =>
          failed := true;
          return;
        case Command(c) =>
          commandString := Some(c);
      }
      if uri.Some? {
        parameterStrings := GetParameters(uri.value);
      }
    }
  }

  /** Where the parts of a printed URI lie. */
  lemma {:induction false} Layout(indexer: string, command: string, query: Option<string>)
    ensures var uri, i, c := UriText(indexer, command, query), |indexer|, |command|;
      && |uri| == i + c + 2 + (if query.Some? then 1 + |query.value| else 0)
      && uri[0] == '/' && uri[1..1 + i] == indexer && uri[1 + i] == '/'
      && uri[2 + i..2 + i + c] == command
      && (query.Some? ==> uri[2 + i + c] == '?' && uri[3 + i + c..] == query.value)
  {
  }

  lemma {:induction false} LayoutAt(indexer: string, command: string, query: Option<string>)
    ensures var uri, i := UriText(indexer, command, query), |indexer|;
      && |uri| >= i + |command| + 2 && uri[1..][i] == '/'
      && (forall k :: 0 <= k < i ==> uri[1..][k] == indexer[k])
      && (forall k :: 0 <= k < |command| ==> uri[1..][i + 1 + k] == command[k])
  {
    Layout(indexer, command, query);
    hide UriText;
    var uri, i := UriText(indexer, command, query), |indexer|;
    forall k | 0 <= k < i
      ensures uri[1..][k] == indexer[k]
    {
      assert uri[1..1 + i][k] == indexer[k];
    }
    forall k | 0 <= k < |command|
      ensures uri[1..][i + 1 + k] == command[k]
    {
      assert uri[2 + i..2 + i + |command|][k] == command[k];
    }
  }

  /** The parts of "/" indexer "/" command ["?" query] are returned as they were written
      exactly when the indexer is not empty and holds no "/" and neither part holds "?". */
  lemma {:induction false} PartsReadBack(indexer: string, command: string, query: Option<string>)
    ensures var uri := UriText(indexer, command, query);
      (uri != "" && GetIndexer(uri) == Some(indexer) && GetCommand(uri) == Command(command)) <==>
      (indexer != "" && '/' !in indexer && '?' !in indexer && '?' !in command)
  {
    Layout(indexer, command, query);
    LayoutAt(indexer, command, query);
    hide UriText, Find;
    var uri, i := UriText(indexer, command, query), |indexer|;
    if k :| 0 <= k < i && indexer[k] == '/' {
      FoundBy(uri[1..], '/', k);
      assert GetIndexer(uri) != Some(indexer);
    } else {
      SlashFound(indexer, command, query);
      if '?' !in indexer && '?' !in command {
        QuestionFound(indexer, command, query);
      } else {
        QuestionEarly(indexer, command, query);
      }
    }
  }

  /** Without a second slash everything is the indexer, a query included, and there is no command. */
  lemma {:induction false} WithoutSecondSlash(rest: string)
    ensures GetCommand("/" + rest).Missing? <==> '/' !in rest
    ensures '/' !in rest ==> GetIndexer("/" + rest) == if rest == "" then None else Some(rest)
  {
    hide Find;
    var uri := "/" + rest;
    assert uri[1..] == rest;
    if '/' !in rest {
      FindAt(rest, '/', |rest|);
      assert uri[1..|uri|] == rest;
    }
  }

  /** With a second slash the number of bytes copied as the command is negative exactly when
      a "?" comes before that slash. */
  lemma {:induction false} NegativeExactlyWhenQuestionFirst(a: string, b: string)
    requires '/' !in a
    ensures GetCommand("/" + a + "/" + b).Negative? <==> '?' in a
    ensures '?' !in a ==> GetCommand("/" + a + "/" + b) == Command(b[..Find(b, '?')])
  {
    SlashBetween(a, b);
    QuestionBetween(a, b);
    hide Find;
    var uri, rest := "/" + a + "/" + b, a + "/" + b;
    assert uri[1..] == rest;
    if '?' !in a {
      assert uri[|a| + 2..|a| + 2 + Find(b, '?')] == b[..Find(b, '?')];
    }
  }

  lemma {:induction false} SlashBetween(a: string, b: string)
    requires '/' !in a
    ensures Find(a + "/" + b, '/') == |a|
  {
    hide Find;
    FindAt(a + "/" + b, '/', |a|);
  }

  lemma {:induction false} QuestionBetween(a: string, b: string)
    ensures var k := Find(a + "/" + b, '?');
      if '?' in a then k < |a| else k == |a| + 1 + Find(b, '?')
  {
    hide Find;
    var rest, i := a + "/" + b, |a|;
    if k :| 0 <= k < i && a[k] == '?' {
      FoundBy(rest, '?', k);
    } else {
      var q := Find(b, '?');
      forall j | 0 <= j < i + 1 + q
        ensures rest[j] != '?'
      {
        if j > i {
          assert rest[j] == b[j - i - 1];
        }
      }
      FindAt(rest, '?', i + 1 + q);
    }
  }

  lemma {:induction false} QuestionEarly(indexer: string, command: string, query: Option<string>)
    requires '?' in indexer || '?' in command
    ensures Find(UriText(indexer, command, query)[1..], '?') < |indexer| + 1 + |command|
  {
    LayoutAt(indexer, command, query);
    hide UriText, Find;
    if k :| 0 <= k < |indexer| && indexer[k] == '?' {
      FoundBy(UriText(indexer, command, query)[1..], '?', k);
    } else if k :| 0 <= k < |command| && command[k] == '?' {
      FoundBy(UriText(indexer, command, query)[1..], '?', |indexer| + 1 + k);
    }
  }

  lemma {:induction false} SlashFound(indexer: string, command: string, query: Option<string>)
    requires '/' !in indexer
    ensures UriText(indexer, command, query) != "" && Find(UriText(indexer, command, query)[1..], '/') == |indexer|
  {
    LayoutAt(indexer, command, query);
    hide UriText, Find;
    FindAt(UriText(indexer, command, query)[1..], '/', |indexer|);
  }

  lemma {:induction false} QuestionFound(indexer: string, command: string, query: Option<string>)
    requires '?' !in indexer && '?' !in command
    ensures var uri, k := UriText(indexer, command, query), |indexer| + |command| + 2;
      Find(uri, '?') == k && uri != "" && Find(uri[1..], '?') == k - 1
  {
    var uri, i, k := UriText(indexer, command, query), |indexer|, |indexer| + |command| + 2;
    Layout(indexer, command, query);
    LayoutAt(indexer, command, query);
    hide UriText, Find;
    forall j | 0 <= j < k - 1
      ensures uri[1..][j] != '?'
    {
      if j > i {
        assert uri[1..][i + 1 + (j - i - 1)] == command[j - i - 1];
      }
    }
    FindAt(uri[1..], '?', k - 1);
    forall j | 0 <= j < k
      ensures uri[j] != '?'
    {
      if j > 0 {
        assert uri[1..][j - 1] == uri[j];
      }
    }
    FindAt(uri, '?', k);
  }

  lemma {:induction false} QueryFound(indexer: string, command: string, query: Option<string>)
    requires '?' !in indexer && '?' !in command
    ensures QueryParameters(UriText(indexer, command, query)) ==
      if query.Some? then Some(Parameters(query.value)) else None
  {
    QuestionFound(indexer, command, query);
    Layout(indexer, command, query);
    hide *;
    QueryAt(UriText(indexer, command, query), |indexer| + |command| + 2);
  }

  lemma {:induction false} QueryAt(uri: string, k: nat)
    requires Find(uri, '?') == k
    ensures QueryParameters(uri) == if k == |uri| then None else Some(Parameters(uri[k + 1..]))
  {
    hide Find, Parameters;
  }

  /** The handlers get the parts and the printed parameters back from a well-formed URI. */
  method ReadPrinted(indexer: string, command: string, query: Option<seq<Parameter>>) returns (input: Input)
    requires indexer != "" && '/' !in indexer && '?' !in indexer && '?' !in command
    requires query.Some? ==> AllClean(query.value)
    ensures fresh(input) && !input.failed
    ensures input.indexerString == Some(indexer) && input.commandString == Some(command)
    ensures input.parameterStrings == query
  {
    var q := if query.Some? then Some(Print(query.value)) else None;
    var uri := UriText(indexer, command, q);
    PartsReadBack(indexer, command, q);
    QueryFound(indexer, command, q);
    if query.Some? {
      PrintParses(query.value);
    }
    hide *;
    input := new Input(Some(uri));
  }
}
