/** From the words of a request to the conditions of an SQL WHERE clause, and what those
    conditions select. */
module WhereConditions {
  import opened Options
  import opened Strings
  import opened Decimals

  datatype ColumnType = Int | VarChar | DateTime | BigInt
  datatype Operator = Equal | Like | In
  datatype Column = Column(table: string, name: string, kind: ColumnType)
  datatype Where = Where(column: Column, operator: Operator, condition: string)

  /** isprint in the C locale; isalnum adds nothing. */
  predicate Printable(c: char) {
    ' ' <= c <= '~'
  }

  predicate IdChar(c: char) {
    IsDigit(c) || c == ','
  }

  function Percent(c: char): char {
    if c == '*' then '%' else c
  }

  function Percents(s: string): string {
    seq(|s|, i requires 0 <= i < |s| => Percent(s[i]))
  }

  /** Operator and condition made of a word, or None when it is refused. */
  function Translate(kind: ColumnType, word: string): Option<(Operator, string)> {
    match kind
    case VarChar =>
      if exists i :: 0 <= i < |word| && !Printable(word[i]) then None
      else if '*' in word then Some((Like, "\"" + Percents(word) + "\""))
      else Some((Equal, "\"" + word + "\""))
    case DateTime => Some((Equal, word))
    case _ =>
      if exists i :: 0 <= i < |word| && !IdChar(word[i]) then None
      else if ',' in word then Some((In, "(" + word + ")"))
      else Some((Equal, word))
  }

  /** Texts are accepted with the codes of the blank to the tilde, numbers with those of the digits
      and the comma, dates always. */
  lemma {:induction false} Accepted(kind: ColumnType, word: string)
    ensures Translate(kind, word).Some? <==>
      match kind
      case VarChar => forall i :: 0 <= i < |word| ==> 32 <= word[i] as int <= 126
      case DateTime => true
      case _ => forall i :: 0 <= i < |word| ==> 48 <= word[i] as int <= 57 || word[i] as int == 44
  {
  }

  class QueryParameters {
    var whereConditions: seq<Where>

    constructor ()
      ensures whereConditions == []
    {
      whereConditions := [];
    }

    /** The word is rewritten where it stands when it holds a wild card. */
    method AddWhere(column: Column, word: array<char>) returns (status: int)
      modifies this, word
      ensures match Translate(column.kind, old(word[..]))
        case None => status == -1 && whereConditions == old(whereConditions) && word[..] == old(word[..])
        case Some((operator, condition)) =>
          && status == 0
          && whereConditions == old(whereConditions) + [Where(column, operator, condition)]
          && word[..] == if column.kind.VarChar? then Percents(old(word[..])) else old(word[..])
      ensures status == 0 <==>
        match column.kind
        case VarChar => forall i :: 0 <= i < word.Length ==> 32 <= old(word[i]) as int <= 126
        case DateTime => true
        case _ => forall i :: 0 <= i < word.Length ==> 48 <= old(word[i]) as int <= 57 || old(word[i]) as int == 44
    {
      Accepted(column.kind, word[..]);
      ghost var text := word[..];
      var operator, condition := Equal, word[..];
      if column.kind == VarChar {
        for i := 0 to word.Length
          invariant forall j :: 0 <= j < i ==> Printable(word[j])
        {
          if !Printable(word[i]) {
            assert !Printable(text[i]);
            return -1;
          }
        }
        if Find(word[..], '*') < word.Length {
          assert text[Find(text, '*')] == '*';
          ReplaceAsterisks(word);
          operator := Like;
        } else {
          assert Percents(text) == text;
        }
        condition := "\"" + word[..] + "\"";
      } else if column.kind == DateTime {
      } else {
        for i := 0 to word.Length
          invariant forall j :: 0 <= j < i ==> IdChar(word[j])
        {
          if !IsDigit(word[i]) && word[i] != ',' {
            assert !IdChar(text[i]);
            return -1;
          }
        }
        if Find(word[..], ',') < word.Length {
          assert text[Find(text, ',')] == ',';
          operator := In;
          condition := "(" + condition + ")";
        }
      }
      whereConditions := whereConditions + [Where(column, operator, condition)];
      status := 0;
    }
  }

  /** Each asterisk is looked for from where the last one was found. */
  method ReplaceAsterisks(word: array<char>)
    modifies word
    ensures word[..] == Percents(old(word[..]))
  {
    var asterisk := Find(word[..], '*');
    assert forall j :: 0 <= j < asterisk ==> word[..][j] != '*';
    while asterisk < word.Length
      invariant 0 <= asterisk <= word.Length
      invariant forall j :: 0 <= j < asterisk ==> word[j] == Percent(old(word[j]))
      invariant forall j :: asterisk <= j < word.Length ==> word[j] == old(word[j])
      invariant asterisk < word.Length ==> word[asterisk] == '*'
      decreases word.Length - asterisk
    {
      word[asterisk] := '%';
      var more := Find(word[asterisk..], '*');
      assert forall j :: asterisk <= j < asterisk + more ==> word[j] == word[asterisk..][j - asterisk] != '*';
      assert word[asterisk..][0] == '%';
      asterisk := asterisk + more;
    }
  }

  // ------------------------------------------------------------ what a condition selects

  /** The text of a double-quoted literal, by the rules of MySQL, for which the conditions are
      written: a doubled quote stands for one, a backslash escapes what follows it, and before
      "%" and "_" it stays where it is, for LIKE to see. */
  function ReadLiteral(text: string): Option<string> {
    if text != "" && text[0] == '"' then ReadBody(text[1..]) else None
  }

  function ReadBody(body: string): Option<string> {
    if body == "" || body == "\\" then None
    else if body[0] == '\\' then
      Prefixed(if WildCard(body[1]) then body[..2] else [Escaped(body[1])], ReadBody(body[2..]))
    else if body[0] != '"' then Prefixed([body[0]], ReadBody(body[1..]))
    else if body == "\"" then Some("")
    else if body[1] == '"' then Prefixed("\"", ReadBody(body[2..]))
    else None
  }

  predicate WildCard(c: char) {
    c == '%' || c == '_'
  }

  /** The character a backslash sequence stands for. */
  function Escaped(c: char): char {
    match c
    case '0' => 0 as char
    case 'b' => 8 as char
    case 't' => 9 as char
    case 'n' => 10 as char
    case 'r' => 13 as char
    case 'Z' => 26 as char
    case _ => c
  }

  function Prefixed(front: string, s: Option<string>): Option<string> {
    if s.Some? then Some(front + s.value) else None
  }

  /** LIKE of section 8.5 of SQL-92, with the backslash as escape character; one that nothing
      follows stands for itself. */
  ghost predicate LikeMatch(pattern: string, s: string) {
    if pattern == "" then s == ""
    else if pattern[0] == '%' then exists k :: 0 <= k <= |s| && LikeMatch(pattern[1..], s[k..])
    else if pattern[0] == '\\' && |pattern| > 1 then
      s != "" && s[0] == pattern[1] && LikeMatch(pattern[2..], s[1..])
    else s != "" && (pattern[0] == '_' || s[0] == pattern[0]) && LikeMatch(pattern[1..], s[1..])
  }

  /** The values a text condition selects; a malformed one selects nothing. */
  ghost predicate Selects(operator: Operator, condition: string, value: string) {
    match ReadLiteral(condition)
    case None => false
    case Some(v) =>
      match operator
      case Equal => value == v
      case Like => LikeMatch(v, value)
      case In => false
  }

  /** What the user means by a pattern: "*" stands for any text. */
  ghost predicate Glob(pattern: string, s: string) {
    if pattern == "" then s == ""
    else if pattern[0] == '*' then exists k :: 0 <= k <= |s| && Glob(pattern[1..], s[k..])
    else s != "" && s[0] == pattern[0] && Glob(pattern[1..], s[1..])
  }

  predicate SpecialChar(c: char) {
    c == '"' || c == '\\' || WildCard(c)
  }

  predicate Special(pattern: string) {
    exists i :: 0 <= i < |pattern| && SpecialChar(pattern[i])
  }

  /** No quote, and no backslash but before "%" or "_". */
  predicate SelfReading(v: string) {
    if v == "" then true
    else if v[0] == '\\' then |v| > 1 && WildCard(v[1]) && SelfReading(v[2..])
    else v[0] != '"' && SelfReading(v[1..])
  }

  // ------------------------------------------------------------ the literal

  lemma {:induction false} LiteralOk(v: string)
    requires SelfReading(v)
    ensures ReadBody(v + "\"") == Some(v)
  {
    var body := v + "\"";
    if v == "" {
      assert body == "\"";
    } else if v[0] == '\\' {
      assert body[2..] == v[2..] + "\"" && body[..2] == v[..2];
      LiteralOk(v[2..]);
      assert v == v[..2] + v[2..];
    } else {
      assert body[1..] == v[1..] + "\"";
      LiteralOk(v[1..]);
      assert v == [v[0]] + v[1..];
    }
  }

  /** What is read is no longer than what was quoted, and as long only if nothing was escaped. */
  lemma {:induction false} LiteralShrinks(v: string)
    ensures var r := ReadBody(v + "\"");
      r.Some? ==> |r.value| <= |v| && (|r.value| == |v| ==> SelfReading(v))
  {
    var body := v + "\"";
    if v == "" {
      assert body == "\"";
    } else if v[0] == '\\' {
      if |v| == 1 {
        assert body[2..] == "";
      } else {
        assert body[2..] == v[2..] + "\"" && body[1] == v[1];
        LiteralShrinks(v[2..]);
      }
    } else if v[0] == '"' {
      if |v| == 1 {
        assert body[2..] == "";
      } else if v[1] == '"' {
        assert body[2..] == v[2..] + "\"";
        LiteralShrinks(v[2..]);
      }
    } else {
      assert body[1..] == v[1..] + "\"";
      LiteralShrinks(v[1..]);
    }
  }

  /** The quotes put around a word denote that word exactly when it holds no quote, and a
      backslash only before "%" or "_". */
  lemma {:induction false} LiteralReadsBack(v: string)
    ensures ReadLiteral("\"" + v + "\"") == Some(v) <==> SelfReading(v)
  {
    assert ("\"" + v + "\"")[1..] == v + "\"";
    LiteralShrinks(v);
    if SelfReading(v) {
      LiteralOk(v);
    }
  }

  // ------------------------------------------------------------ the pattern

  lemma {:induction false} PercentsStep(pattern: string)
    requires pattern != ""
    ensures Percents(pattern) != "" && Percents(pattern)[0] == Percent(pattern[0])
    ensures Percents(pattern)[1..] == Percents(pattern[1..])
  {
  }

  lemma {:induction false} SpecialStep(pattern: string)
    requires pattern != ""
    ensures Special(pattern) <==> SpecialChar(pattern[0]) || Special(pattern[1..])
  {
    if Special(pattern[1..]) {
      var i :| 0 <= i < |pattern[1..]| && SpecialChar(pattern[1..][i]);
      assert SpecialChar(pattern[i + 1]);
    }
    if Special(pattern) && !SpecialChar(pattern[0]) {
      var i :| 0 <= i < |pattern| && SpecialChar(pattern[i]);
      assert pattern[1..][i - 1] == pattern[i];
    }
  }

  lemma {:induction false} GlobIsLike(pattern: string, s: string)
    requires !Special(pattern)
    ensures LikeMatch(Percents(pattern), s) <==> Glob(pattern, s)
    decreases |pattern|
  {
    if pattern != "" {
      PercentsStep(pattern);
      SpecialStep(pattern);
      hide Percents, Special;
      if pattern[0] == '*' {
        forall k | 0 <= k <= |s|
          ensures LikeMatch(Percents(pattern[1..]), s[k..]) <==> Glob(pattern[1..], s[k..])
        {
          GlobIsLike(pattern[1..], s[k..]);
        }
      } else if s != "" {
        GlobIsLike(pattern[1..], s[1..]);
      }
    } else {
      assert Percents(pattern) == "";
    }
  }

  lemma {:induction false} GlobIsEqual(pattern: string, s: string)
    requires '*' !in pattern
    ensures Glob(pattern, s) <==> s == pattern
    decreases |pattern|
  {
    if pattern != "" && s != "" {
      GlobIsEqual(pattern[1..], s[1..]);
      assert pattern == [pattern[0]] + pattern[1..] && s == [s[0]] + s[1..];
    }
  }

  /** The pattern without its asterisks: the shortest text it means. */
  function Solid(pattern: string): string {
    if pattern == "" then ""
    else (if pattern[0] == '*' then "" else [pattern[0]]) + Solid(pattern[1..])
  }

  lemma {:induction false} GlobNeedsSolid(pattern: string, s: string)
    requires Glob(pattern, s)
    ensures |s| >= |Solid(pattern)|
    ensures |s| == |Solid(pattern)| ==> s == Solid(pattern)
    decreases |pattern|
  {
    if pattern != "" {
      if pattern[0] == '*' {
        var k :| 0 <= k <= |s| && Glob(pattern[1..], s[k..]);
        GlobNeedsSolid(pattern[1..], s[k..]);
        assert k == 0 ==> s[k..] == s;
      } else {
        GlobNeedsSolid(pattern[1..], s[1..]);
        assert s == [s[0]] + s[1..];
      }
    }
  }

  lemma {:induction false} GlobAcceptsSolid(pattern: string)
    ensures Glob(pattern, Solid(pattern))
  {
    if pattern != "" {
      GlobAcceptsSolid(pattern[1..]);
      var s := Solid(pattern);
      if pattern[0] == '*' {
        assert s[0..] == s;
      } else {
        assert s[1..] == Solid(pattern[1..]);
      }
    }
  }

  /** A shortest text that LIKE accepts, with "x" where any character will do. */
  function Least(v: string): string {
    if v == "" then ""
    else if v[0] == '%' then Least(v[1..])
    else if v[0] == '\\' && |v| > 1 then [v[1]] + Least(v[2..])
    else [if v[0] == '_' then 'x' else v[0]] + Least(v[1..])
  }

  lemma {:induction false} LikeAcceptsLeast(v: string)
    ensures LikeMatch(v, Least(v))
    decreases |v|
  {
    if v != "" {
      var s := Least(v);
      if v[0] == '%' {
        LikeAcceptsLeast(v[1..]);
        assert s[0..] == s;
      } else if v[0] == '\\' && |v| > 1 {
        LikeAcceptsLeast(v[2..]);
        assert s[1..] == Least(v[2..]);
      } else {
        LikeAcceptsLeast(v[1..]);
        assert s[1..] == Least(v[1..]);
      }
    }
  }

  function Weight(v: string): nat {
    if v == "" then 0 else (if v[0] == '%' then 0 else 1) + Weight(v[1..])
  }

  lemma {:induction false} LeastWeight(v: string)
    ensures |Least(v)| <= Weight(v)
    decreases |v|
  {
    if v != "" {
      if v[0] == '\\' && |v| > 1 {
        LeastWeight(v[2..]);
        assert v[1..][1..] == v[2..];
      } else {
        LeastWeight(v[1..]);
      }
    }
  }

  lemma {:induction false} WeightOf(front: string, v: string)
    requires |front| <= 2
    ensures Weight(front + v) == Weight(front) + Weight(v)
  {
    if front == "" {
      assert front + v == v;
    } else {
      assert (front + v)[1..] == front[1..] + v;
      WeightOf(front[1..], v);
    }
  }

  /** A pattern that is read unchanged but for its asterisks. */
  predicate Tame(pattern: string) {
    if pattern == "" then true
    else if pattern[0] == '\\' then
      |pattern| > 1 && (pattern[1] == '*' || pattern[1] == '_') && Tame(pattern[2..])
    else pattern[0] != '"' && pattern[0] != '%' && Tame(pattern[1..])
  }

  /** Reading loses weight unless the pattern is tame. */
  lemma {:induction false} ReadLosesWeight(pattern: string)
    ensures var r := ReadBody(Percents(pattern) + "\"");
      r.Some? ==>
        && Weight(r.value) <= |Solid(pattern)|
        && (Weight(r.value) == |Solid(pattern)| ==> Tame(pattern) && r.value == Percents(pattern))
    decreases |pattern|
  {
    var body := Percents(pattern) + "\"";
    if pattern == "" {
      assert body == "\"";
    } else if |pattern| > 1 && (pattern[0] == '\\' || pattern[0] == '"') {
      var rest := Percents(pattern[2..]);
      assert body[2..] == rest + "\"" && body[0] == pattern[0] && body[1] == Percent(pattern[1]);
      assert body[..2] == [pattern[0], Percent(pattern[1])];
      assert Percents(pattern) == [pattern[0], Percent(pattern[1])] + rest;
      assert pattern[1..][1..] == pattern[2..];
      ReadLosesWeight(pattern[2..]);
      hide Percents;
      TwoRead(body, ReadBody(body[2..]));
    } else {
      PercentsStep(pattern);
      if pattern[0] == '\\' || pattern[0] == '"' {
        assert body == [pattern[0]] + "\"" && body[2..] == "";
      } else {
        assert body[1..] == Percents(pattern[1..]) + "\"";
        ReadLosesWeight(pattern[1..]);
        var r := ReadBody(body[1..]);
        if r.Some? {
          WeightOf([Percent(pattern[0])], r.value);
          assert Weight([Percent(pattern[0])]) == if Percent(pattern[0]) == '%' then 0 else 1;
          assert Percents(pattern) == [Percent(pattern[0])] + Percents(pattern[1..]);
        }
      }
    }
  }

  lemma {:induction false} TwoRead(body: string, rest: Option<string>)
    requires |body| >= 2 && (body[0] == '\\' || body[0] == '"') && rest == ReadBody(body[2..])
    ensures var r := ReadBody(body);
      && (r.Some? ==> rest.Some? && (body[0] == '"' ==> body[1] == '"'))
      && (r.Some? && body[0] == '\\' && WildCard(body[1]) ==>
            && r.value == body[..2] + rest.value
            && Weight(r.value) == (if body[1] == '%' then 1 else 2) + Weight(rest.value))
      && (r.Some? && !(body[0] == '\\' && WildCard(body[1])) ==> Weight(r.value) <= 1 + Weight(rest.value))
  {
    if rest.Some? {
      WeightOf(body[..2], rest.value);
      WeightOf([Escaped(body[1])], rest.value);
      WeightOf("\"", rest.value);
      assert body[..2][1..] == [body[1]] && [body[1]][1..] == "";
    }
  }

  /** For a tame pattern with something special, LIKE accepts a text that is not meant. */
  lemma {:induction false} LeastIsNotSolid(pattern: string)
    requires Tame(pattern)
    ensures |Least(Percents(pattern))| <= |Solid(pattern)|
    ensures Special(pattern) ==> Least(Percents(pattern)) != Solid(pattern)
    decreases |pattern|
  {
    if pattern != "" {
      var v, least, solid := Percents(pattern), Least(Percents(pattern)), Solid(pattern);
      PercentsStep(pattern);
      SpecialStep(pattern);
      if pattern[0] == '\\' {
        PercentsStep(pattern[1..]);
        LeastIsNotSolid(pattern[2..]);
        assert pattern[1..][1..] == pattern[2..] && v[2..] == Percents(pattern[2..]);
        assert least[0] == Percent(pattern[1]) && solid[0] == '\\';
      } else {
        LeastIsNotSolid(pattern[1..]);
        hide Percents, Special, Tame;
        if pattern[0] != '*' {
          assert least[1..] == Least(v[1..]) && solid[1..] == Solid(pattern[1..]);
        }
      }
    } else {
      assert Percents(pattern) == "";
    }
  }

  /** What is needed of a pattern for its condition to select what it means. */
  predicate KeepsMeaning(pattern: string) {
    if '*' in pattern then !Special(pattern) else SelfReading(pattern)
  }

  lemma {:induction false} LikeKeepsMeaning(pattern: string)
    ensures (forall s :: Selects(Like, "\"" + Percents(pattern) + "\"", s) <==> Glob(pattern, s)) <==> !Special(pattern)
  {
    var q, condition := Percents(pattern), "\"" + Percents(pattern) + "\"";
    assert condition[1..] == q + "\"";
    if Special(pattern) {
      GlobAcceptsSolid(pattern);
      var r := ReadLiteral(condition);
      if r.Some? {
        SpecialIsNotMeant(pattern, r.value);
        assert Selects(Like, condition, Least(r.value)) && !Glob(pattern, Least(r.value));
      } else {
        assert !Selects(Like, condition, Solid(pattern)) && Glob(pattern, Solid(pattern));
      }
    } else {
      PercentsPlain(pattern);
      LiteralReadsBack(q);
      forall s
        ensures Selects(Like, condition, s) <==> Glob(pattern, s)
      {
        GlobIsLike(pattern, s);
      }
    }
  }

  lemma {:induction false} SpecialIsNotMeant(pattern: string, v: string)
    requires Special(pattern) && ReadBody(Percents(pattern) + "\"") == Some(v)
    ensures LikeMatch(v, Least(v)) && !Glob(pattern, Least(v))
  {
    LikeAcceptsLeast(v);
    ReadLosesWeight(pattern);
    LeastWeight(v);
    if Weight(v) == |Solid(pattern)| {
      LeastIsNotSolid(pattern);
    }
    hide *;
    if Glob(pattern, Least(v)) {
      GlobNeedsSolid(pattern, Least(v));
    }
  }

  lemma {:induction false} EqualKeepsMeaning(pattern: string)
    requires '*' !in pattern
    ensures (forall s :: Selects(Equal, "\"" + pattern + "\"", s) <==> Glob(pattern, s)) <==> SelfReading(pattern)
  {
    LiteralReadsBack(pattern);
    hide ReadLiteral, SelfReading;
    GlobIsEqual(pattern, pattern);
    if SelfReading(pattern) {
      forall s
        ensures Selects(Equal, "\"" + pattern + "\"", s) <==> Glob(pattern, s)
      {
        GlobIsEqual(pattern, s);
      }
    } else {
      assert !Selects(Equal, "\"" + pattern + "\"", pattern);
    }
  }

  /** A word is accepted if and only if its character codes lie in 32..126, and its condition then selects exactly
      what the word means as a pattern if and only if, with a "*", it holds no quote, backslash,
      "%" or "_", and without one, no quote and no backslash but before "%" or "_". */
  lemma {:induction false} WildcardKeepsMeaning(pattern: string)
    ensures Translate(VarChar, pattern).Some? <==> forall i :: 0 <= i < |pattern| ==> 32 <= pattern[i] as int <= 126
    ensures Translate(VarChar, pattern).Some? ==>
      var (operator, condition) := Translate(VarChar, pattern).value;
      ((forall s :: Selects(operator, condition, s) <==> Glob(pattern, s)) <==> KeepsMeaning(pattern))
  {
    Accepted(VarChar, pattern);
    if '*' in pattern {
      LikeKeepsMeaning(pattern);
    } else {
      EqualKeepsMeaning(pattern);
    }
  }

  lemma {:induction false} PercentsPlain(pattern: string)
    requires !Special(pattern)
    ensures SelfReading(Percents(pattern))
  {
    if pattern != "" {
      PercentsStep(pattern);
      SpecialStep(pattern);
      PercentsPlain(pattern[1..]);
    }
  }

  // ------------------------------------------------------------ dates

  /** A date word goes into the condition as it is. As a text literal it never denotes itself, and
      denotes something only when it begins with a quote; a value that the client has quoted is
      selected exactly when it reads back. */
  lemma {:induction false} DateNeedsItsQuotes(word: string, value: string)
    ensures Translate(DateTime, word).Some?
    ensures var (operator, condition) := Translate(DateTime, word).value;
      && ReadLiteral(condition) != Some(word)
      && (Selects(operator, condition, value) ==> word != "" && word[0] == '"')
    ensures var (operator, condition) := Translate(DateTime, "\"" + value + "\"").value;
      Selects(operator, condition, value) <==> SelfReading(value)
  {
    LiteralReadsBack(value);
    LiteralShorter(word);
    hide ReadLiteral;
    assert Translate(DateTime, word) == Some((Equal, word));
  }

  lemma {:induction false} LiteralShorter(text: string)
    ensures var r := ReadLiteral(text);
      r.Some? ==> |text| > 0 && text[0] == '"' && |r.value| < |text|
  {
    if text != "" && text[0] == '"' {
      BodyShorter(text[1..]);
    }
  }

  lemma {:induction false} BodyShorter(body: string)
    ensures ReadBody(body).Some? ==> |ReadBody(body).value| < |body|
    decreases |body|
  {
    if |body| >= 2 && (body[0] == '\\' || (body[0] == '"' && body[1] == '"')) {
      BodyShorter(body[2..]);
    } else if body != "" && body[0] != '"' && body[0] != '\\' {
      BodyShorter(body[1..]);
    }
  }

  // ------------------------------------------------------------ lists of ids

  /** A list of numerals; an empty piece is a syntax error. */
  predicate NumberList(list: string) {
    var pieces := Split(list, ',');
    forall i :: 0 <= i < |pieces| ==> pieces[i] != "" && AllDigits(pieces[i])
  }

  function ReadNumbers(pieces: seq<string>): seq<nat>
    requires forall i :: 0 <= i < |pieces| ==> AllDigits(pieces[i])
  {
    seq(|pieces|, i requires 0 <= i < |pieces| => ReadNat(pieces[i]))
  }

  /** The ids a number condition names, if it is well formed: one numeral after "=", a list
      in parentheses after IN. */
  function ReadIds(operator: Operator, condition: string): Option<seq<nat>> {
    match operator
    case Equal =>
      if condition != "" && AllDigits(condition) then Some([ReadNat(condition)]) else None
    case In =>
      var n := |condition|;
      if n >= 2 && condition[0] == '(' && condition[n - 1] == ')' && NumberList(condition[1..n - 1])
      then Some(ReadNumbers(Split(condition[1..n - 1], ','))) else None
    case Like => None
  }

  function Numerals(ids: seq<nat>): (texts: seq<string>)
    ensures |texts| == |ids|
    ensures forall i :: 0 <= i < |texts| ==> texts[i] == PrintNat(ids[i])
  {
    if ids == [] then [] else [PrintNat(ids[0])] + Numerals(ids[1..])
  }

  /** An array of ids as the client puts it into the URL. */
  function IdText(ids: seq<nat>): string {
    Join(Numerals(ids), ',')
  }

  lemma {:induction false} JoinChars(pieces: seq<string>)
    requires forall i :: 0 <= i < |pieces| ==> AllDigits(pieces[i])
    ensures forall i :: 0 <= i < |Join(pieces, ',')| ==> IdChar(Join(pieces, ',')[i])
    ensures |pieces| >= 2 ==> ',' in Join(pieces, ',')
    ensures |pieces| == 1 ==> AllDigits(Join(pieces, ','))
  {
    if |pieces| >= 2 {
      JoinChars(pieces[1..]);
      assert Join(pieces, ',')[|pieces[0]|] == ',';
    }
  }

  lemma {:induction false} IdTextSplits(ids: seq<nat>)
    requires ids != []
    ensures Split(IdText(ids), ',') == Numerals(ids)
    ensures ReadNumbers(Numerals(ids)) == ids
  {
    SplitExactlyUndoesJoin(Numerals(ids), ',');
    hide Split, Join, PrintNat;
    forall i | 0 <= i < |ids|
      ensures ReadNat(Numerals(ids)[i]) == ids[i] && ',' !in Numerals(ids)[i]
    {
      ReadPrintNat(ids[i]);
    }
  }

  /** Every non-empty list of ids the client prints is accepted, and its condition names
      exactly those ids: by "=" for one, by IN for more. */
  lemma {:induction false} IdListKeepsMeaning(ids: seq<nat>, kind: ColumnType)
    requires ids != [] && (kind.Int? || kind.BigInt?)
    ensures Translate(kind, IdText(ids)).Some?
    ensures var (operator, condition) := Translate(kind, IdText(ids)).value;
      && operator == (if |ids| == 1 then Equal else In)
      && ReadIds(operator, condition) == Some(ids)
  {
    var list := IdText(ids);
    JoinChars(Numerals(ids));
    IdTextSplits(ids);
    hide PrintNat, Split, Join;
    if |ids| == 1 {
      OneNumeral(ids);
      OnlyDigits(list);
    } else {
      hide IdText;
      InParentheses(list);
    }
  }

  lemma {:induction false} OneNumeral(ids: seq<nat>)
    requires |ids| == 1
    ensures IdText(ids) == PrintNat(ids[0]) && ids == [ReadNat(PrintNat(ids[0]))]
  {
    ReadPrintNat(ids[0]);
  }

  lemma {:induction false} InParentheses(list: string)
    requires NumberList(list)
    ensures ReadIds(In, "(" + list + ")") == Some(ReadNumbers(Split(list, ',')))
  {
    hide Split, ReadNat;
    assert ("(" + list + ")")[1..|list| + 1] == list;
  }

  lemma {:induction false} OnlyDigits(s: string)
    requires AllDigits(s)
    ensures ',' !in s
  {
  }

  /** A refused word holds a character that is neither a digit nor a comma; an accepted one
      still makes a malformed condition exactly when a piece between commas is empty. */
  lemma {:induction false} AcceptedIdsWellFormed(word: string, kind: ColumnType)
    requires kind.Int? || kind.BigInt?
    ensures Translate(kind, word).Some? <==>
      forall i :: 0 <= i < |word| ==> 48 <= word[i] as int <= 57 || word[i] as int == 44
    ensures Translate(kind, word).Some? ==>
      (ReadIds(Translate(kind, word).value.0, Translate(kind, word).value.1).Some? <==> "" !in Split(word, ','))
  {
    Accepted(kind, word);
    if Translate(kind, word).Some? {
      PiecesAreDigits(word);
      hide Split, NumberList, ReadNumbers;
      if ',' in word {
        ListRead(word);
      } else {
        SplitFirst(word, ',', "");
        OnlyDigitChars(word);
      }
    }
  }

  lemma {:induction false} ListRead(word: string)
    requires forall i :: 0 <= i < |Split(word, ',')| ==> AllDigits(Split(word, ',')[i])
    ensures ReadIds(In, "(" + word + ")").Some? <==> "" !in Split(word, ',')
  {
    hide Split, AllDigits, ReadNumbers;
    assert ("(" + word + ")")[1..|word| + 1] == word;
  }

  lemma {:induction false} OnlyDigitChars(word: string)
    requires ',' !in word && forall i :: 0 <= i < |word| ==> IdChar(word[i])
    ensures AllDigits(word)
  {
  }

  lemma {:induction false} PiecesAreDigits(word: string)
    requires forall i :: 0 <= i < |word| ==> IdChar(word[i])
    ensures forall i :: 0 <= i < |Split(word, ',')| ==> AllDigits(Split(word, ',')[i])
  {
    var k := Find(word, ',');
    assert AllDigits(word[..k]);
    if k < |word| {
      PiecesAreDigits(word[k + 1..]);
    }
  }
}
