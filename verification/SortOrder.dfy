/** The sort order on its way from the client's list of columns to an SQL ORDER BY clause. */
module SortOrder {
  import opened Options
  import opened Sequences
  import opened Strings
  import opened WhereConditions

  // ------------------------------------------------------------ the client

  datatype SortItem = SortItem(order: char, friendlyName: string)

  function ItemTexts(items: seq<SortItem>): (texts: seq<string>)
    ensures |texts| == |items|
    ensures forall i :: 0 <= i < |items| ==> texts[i] == [items[i].order] + items[i].friendlyName
  {
    if items == [] then [] else [[items[0].order] + items[0].friendlyName] + ItemTexts(items[1..])
  }

  function SortText(items: seq<SortItem>): string {
    Join(ItemTexts(items), ',')
  }

  lemma {:induction false} JoinLast(texts: seq<string>, text: string, c: char)
    ensures Join(texts + [text], c) == if texts == [] then text else Join(texts, c) + [c] + text
    ensures texts != [] && texts[0] != "" ==> Join(texts, c) != ""
  {
    if texts == [] {
      assert texts + [text] == [text];
    } else if |texts| == 1 {
      assert (texts + [text])[1..] == [text];
    } else {
      JoinLast(texts[1..], text, c);
      SplitOff(texts, [text]);
      var rest := Join(texts[1..], c);
      assert Join(texts, c) == texts[0] + [c] + rest;
      assert Join(texts + [text], c) == texts[0] + [c] + Join(texts[1..] + [text], c);
      hide Join;
      Regroup(texts[0] + [c], rest, [c], text);
    }
  }

  lemma {:induction false} Regroup(w: string, x: string, y: string, z: string)
    ensures w + (x + y + z) == w + x + y + z
  {
  }

  lemma {:induction false} SortTextNext(items: seq<SortItem>, i: nat)
    requires i < |items|
    ensures var text := [items[i].order] + items[i].friendlyName;
      SortText(items[..i + 1]) == if i == 0 then text else SortText(items[..i]) + [','] + text
  {
    var text := [items[i].order] + items[i].friendlyName;
    assert items[..i + 1][..i] == items[..i];
    ItemTextsNext(items[..i], items[i]);
    assert items[..i + 1] == items[..i] + [items[i]];
    hide Join, ItemTexts;
    JoinLast(ItemTexts(items[..i]), text, ',');
  }

  lemma {:induction false} ItemTextsNext(items: seq<SortItem>, item: SortItem)
    ensures ItemTexts(items + [item]) == ItemTexts(items) + [[item.order] + item.friendlyName]
  {
    if items == [] {
      assert items + [item] == [item] && [item][1..] == [];
    } else {
      SplitOff(items, [item]);
      ItemTextsNext(items[1..], item);
    }
  }

  /** The part of set_url that prints the sort order. */
  method PrintSort(sortBy: seq<SortItem>) returns (sortString: string)
    ensures sortString == SortText(sortBy)
  {
    sortString := "";
    for i := 0 to |sortBy|
      invariant sortString == SortText(sortBy[..i])
      invariant sortString == "" <==> i == 0
    {
      var text := [sortBy[i].order] + sortBy[i].friendlyName;
      SortTextNext(sortBy, i);
      hide *;
      if |sortString| == 0 {
        sortString := text;
      } else {
        sortString := sortString + "," + text;
      }
      assert |sortString| > 0;
    }
    assert sortBy[..|sortBy|] == sortBy;
  }

  // ------------------------------------------------------------ the server

  const MAX_SIZE: nat := 255

  datatype Direction = Default | Asc | Desc
  datatype Term = Term(column: Column, direction: Direction)

  function Suffix(d: Direction): string {
    match d
    case Default => ""
    case Asc => " ASC"
    case Desc => " DESC"
  }

  function TermText(t: Term): string {
    t.column.table + "." + t.column.name + Suffix(t.direction)
  }

  /** What strtok finds: the pieces that are not empty. */
  function NonEmpty(pieces: seq<string>): seq<string> {
    if pieces == [] then []
    else (if pieces[0] == "" then [] else [pieces[0]]) + NonEmpty(pieces[1..])
  }

  function Tokens(s: string): seq<string> {
    NonEmpty(Split(s, ','))
  }

  function DirectionOf(token: string): Direction {
    if token != "" && token[0] == '+' then Asc else if token != "" && token[0] == '-' then Desc else Default
  }

  function NameOf(token: string): string {
    if DirectionOf(token) == Default then token else token[1..]
  }

  function TermFor(token: string, lookup: string -> Option<Column>): seq<Term> {
    match lookup(NameOf(token))
    case None => []
    case Some(column) => [Term(column, DirectionOf(token))]
  }

  function UnknownFor(token: string, lookup: string -> Option<Column>): seq<string> {
    if lookup(NameOf(token)).None? then [NameOf(token)] else []
  }

  /** The terms of the known names, and the names that are not known, each in order. */
  function TermsOf(tokens: seq<string>, lookup: string -> Option<Column>): seq<Term> {
    if tokens == [] then [] else TermFor(tokens[0], lookup) + TermsOf(tokens[1..], lookup)
  }

  function UnknownOf(tokens: seq<string>, lookup: string -> Option<Column>): seq<string> {
    if tokens == [] then [] else UnknownFor(tokens[0], lookup) + UnknownOf(tokens[1..], lookup)
  }

  function TermTexts(terms: seq<Term>): (texts: seq<string>)
    ensures |texts| == |terms|
    ensures forall i :: 0 <= i < |terms| ==> texts[i] == TermText(terms[i])
  {
    if terms == [] then [] else [TermText(terms[0])] + TermTexts(terms[1..])
  }

  /** The clause's value: the earlier value, if any, and the terms. */
  function OrderText(value: Option<string>, terms: seq<Term>): Option<string> {
    if terms == [] then value
    else Some(Join((if value.None? then [] else [value.value]) + TermTexts(terms), ','))
  }

  function Appended(value: Option<string>, text: string): string {
    if value.None? then text else value.value + "," + text
  }

  function Limited(word: string): string {
    if |word| <= MAX_SIZE then word else word[..MAX_SIZE]
  }

  lemma {:induction false} LimitedIs(word: string)
    ensures Limited(word) == if |word| <= 255 then word else word[..255]
  {
  }

  lemma {:induction false} TokensSkip(rest: string)
    ensures Tokens("," + rest) == Tokens(rest)
  {
    SplitFirst("", ',', rest);
    assert "" + [','] + rest == "," + rest;
    hide Split;
    assert ([""] + Split(rest, ','))[1..] == Split(rest, ',');
  }

  lemma {:induction false} TokensNone()
    ensures Tokens("") == []
  {
    SplitFirst("", ',', "");
    assert [""][1..] == [];
  }

  lemma {:induction false} TokensFirst(first: string, rest: string)
    requires first != "" && ',' !in first
    ensures Tokens(first + "," + rest) == [first] + Tokens(rest)
    ensures Tokens(first) == [first] + Tokens("")
  {
    SplitFirst(first, ',', rest);
    TokensNone();
    hide Split;
    assert ([first] + Split(rest, ','))[1..] == Split(rest, ',');
    assert [first][1..] == [];
  }

  /** One round of strtok on what is left, which begins with no comma. */
  lemma {:induction false} TokensRound(s: string)
    requires s != "" && s[0] != ','
    ensures var k := Find(s, ',');
      Tokens(s) == [s[..k]] + Tokens(if k < |s| then s[k + 1..] else "")
  {
    hide Tokens, Find;
    var k := Find(s, ',');
    if k < |s| {
      TokensFirst(s[..k], s[k + 1..]);
      assert s == s[..k] + "," + s[k + 1..];
    } else {
      TokensFirst(s, "");
      assert s[..k] == s;
    }
  }

  lemma {:induction false} OrderGrows(value: Option<string>, terms: seq<Term>, t: Term)
    ensures OrderText(value, terms + [t]) == Some(Appended(OrderText(value, terms), TermText(t)))
  {
    var before := if value.None? then [] else [value.value];
    hide TermText, Join;
    assert TermTexts(terms + [t]) == TermTexts(terms) + [TermText(t)];
    assert before + (TermTexts(terms) + [TermText(t)]) == (before + TermTexts(terms)) + [TermText(t)];
    JoinLast(before + TermTexts(terms), TermText(t), ',');
    assert before + [] == before;
    JoinLast(before, TermText(t), ',');
    if terms == [] && value.Some? {
      OneJoined(value.value);
    }
  }

  lemma {:induction false} OneJoined(s: string)
    ensures Join([s], ',') == s
  {
  }

  lemma {:induction false} TermsAdded(done: seq<string>, token: string, lookup: string -> Option<Column>)
    ensures TermsOf(done + [token], lookup) == TermsOf(done, lookup) + TermFor(token, lookup)
  {
    hide TermFor;
    if done == [] {
      assert done + [token] == [token] && [token][1..] == [];
    } else {
      assert (done + [token])[1..] == done[1..] + [token];
      TermsAdded(done[1..], token, lookup);
    }
  }

  lemma {:induction false} UnknownAdded(done: seq<string>, token: string, lookup: string -> Option<Column>)
    ensures UnknownOf(done + [token], lookup) == UnknownOf(done, lookup) + UnknownFor(token, lookup)
  {
    hide UnknownFor;
    if done == [] {
      assert done + [token] == [token] && [token][1..] == [];
    } else {
      assert (done + [token])[1..] == done[1..] + [token];
      UnknownAdded(done[1..], token, lookup);
    }
  }

  /** The clause so far with one more token converted. */
  lemma {:induction false} TokenConverted(value: Option<string>, done: seq<string>, token: string,
                                          lookup: string -> Option<Column>)
    ensures OrderText(value, TermsOf(done + [token], lookup)) ==
      match lookup(NameOf(token))
      case None => OrderText(value, TermsOf(done, lookup))
      case Some(column) =>
        Some(Appended(OrderText(value, TermsOf(done, lookup)), TermText(Term(column, DirectionOf(token)))))
  {
    TermsAdded(done, token, lookup);
    hide TermsOf, OrderText, TermText;
    match lookup(NameOf(token))
    case None =>
      assert TermsOf(done, lookup) + [] == TermsOf(done, lookup);
    case Some(column) =>
      OrderGrows(value, TermsOf(done, lookup), Term(column, DirectionOf(token)));
  }

  /** The body of the loop: the modifier is cut off and the name looked up. */
  method ConvertToken(value: Option<string>, token: string, lookup: string -> Option<Column>)
      returns (newValue: Option<string>, unknown: seq<string>)
    requires token != ""
    ensures newValue == match lookup(NameOf(token))
      case None => value
      case Some(column) => Some(Appended(value, TermText(Term(column, DirectionOf(token)))))
    ensures unknown == UnknownFor(token, lookup)
  {
    var colFname, aOrD := token, "";
    if colFname[0] == '+' {
      aOrD := " ASC";
      colFname := colFname[1..];
    } else if colFname[0] == '-' {
      aOrD := " DESC";
      colFname := colFname[1..];
    }
    match lookup(colFname)
    case Some(column) =>
      var text := column.table + "." + column.name + aOrD;
      newValue, unknown := Some(if value.None? then text else value.value + "," + text), [];
    case None =>
      newValue, unknown := value, [colFname];
  }

  /** The sort_by branch: at most 255 characters are split at commas; a known name becomes a
      term of the clause, an unknown one an error message. */
  method CompileSort(value: Option<string>, word: string, lookup: string -> Option<Column>)
      returns (newValue: Option<string>, unknown: seq<string>)
    ensures var kept := if |word| <= 255 then word else word[..255];
      newValue == OrderText(value, TermsOf(Tokens(kept), lookup)) && unknown == UnknownOf(Tokens(kept), lookup)
  {
    LimitedIs(word);
    var rest := Limited(word);
    newValue, unknown := value, [];
    ghost var done: seq<string> := [];
    while rest != ""
      invariant Tokens(Limited(word)) == done + Tokens(rest)
      invariant newValue == OrderText(value, TermsOf(done, lookup))
      invariant unknown == UnknownOf(done, lookup)
      decreases |rest|
    {
      hide *;
      if rest[0] == ',' {
        TokensSkip(rest[1..]);
        assert rest == "," + rest[1..];
        rest := rest[1..];
        continue;
      }
      TokensRound(rest);
      var k := Find(rest, ',');
      var token := rest[..k];
      rest := if k < |rest| then rest[k + 1..] else "";
      Associates(done, [token], Tokens(rest));
      TokenConverted(value, done, token, lookup);
      UnknownAdded(done, token, lookup);
      var one;
      newValue, one := ConvertToken(newValue, token, lookup);
      unknown := unknown + one;
      done := done + [token];
    }
    TokensNone();
    assert done + [] == done;
  }

  // ------------------------------------------------------------ what the clause says

  datatype Order = Order(table: string, column: string, direction: Direction)

  function ReadDirection(suffix: string): Option<Direction> {
    if suffix == "" then Some(Default) else if suffix == " ASC" then Some(Asc)
    else if suffix == " DESC" then Some(Desc) else None
  }

  function ReadColumn(table: string, rest: string): Option<Order> {
    var space := Find(rest, ' ');
    var direction := ReadDirection(rest[space..]);
    if direction.None? then None else Some(Order(table, rest[..space], direction.value))
  }

  /** A sort specification: a column of a table, with its direction. */
  function ReadTerm(text: string): Option<Order> {
    var dot := Find(text, '.');
    if dot == |text| then None else ReadColumn(text[..dot], text[dot + 1..])
  }

  function ReadTerms(texts: seq<string>): Option<seq<Order>> {
    if texts == [] then Some([])
    else
      match (ReadTerm(texts[0]), ReadTerms(texts[1..]))
      case (Some(t), Some(ts)) => Some([t] + ts)
      case _ => None
  }

  function ReadOrder(clause: string): Option<seq<Order>> {
    ReadTerms(Split(clause, ','))
  }

  predicate Plain(s: string) {
    ',' !in s && '.' !in s && ' ' !in s
  }

  predicate PlainColumn(c: Column) {
    Plain(c.table) && Plain(c.name)
  }

  function Meant(terms: seq<Term>): seq<Order> {
    if terms == [] then []
    else [Order(terms[0].column.table, terms[0].column.name, terms[0].direction)] + Meant(terms[1..])
  }

  lemma {:induction false} ColumnReads(table: string, name: string, d: Direction)
    requires ' ' !in name
    ensures ReadColumn(table, name + Suffix(d)) == Some(Order(table, name, d))
  {
    hide Find;
    var rest, m := name + Suffix(d), |name|;
    FindAt(rest, ' ', m);
    assert rest[..m] == name && rest[m..] == Suffix(d);
  }

  lemma {:induction false} TermReads(t: Term)
    requires PlainColumn(t.column)
    ensures ReadTerm(TermText(t)) == Some(Order(t.column.table, t.column.name, t.direction))
    ensures ',' !in TermText(t)
  {
    TermLayout(t);
    var text, n := TermText(t), |t.column.table|;
    hide *;
    FindAt(text, '.', n);
    ColumnReads(t.column.table, t.column.name, t.direction);
    ReadTermAt(text, n);
  }

  lemma {:induction false} ReadTermAt(text: string, dot: nat)
    requires dot < |text| && Find(text, '.') == dot
    ensures ReadTerm(text) == ReadColumn(text[..dot], text[dot + 1..])
  {
    hide Find, ReadColumn;
  }

  lemma {:induction false} TermLayout(t: Term)
    requires PlainColumn(t.column)
    ensures var text, n := TermText(t), |t.column.table|;
      && n < |text| && text[n] == '.' && (forall j :: 0 <= j < n ==> text[j] != '.')
      && text[..n] == t.column.table && text[n + 1..] == t.column.name + Suffix(t.direction)
      && ',' !in text && ' ' !in t.column.name
  {
  }

  lemma {:induction false} TermsRead(terms: seq<Term>)
    requires forall i :: 0 <= i < |terms| ==> PlainColumn(terms[i].column)
    ensures ReadTerms(TermTexts(terms)) == Some(Meant(terms))
    ensures Without(TermTexts(terms), ',')
  {
    if terms != [] {
      TermReads(terms[0]);
      TermsRead(terms[1..]);
      hide TermText, ReadTerm, PlainColumn;
      Headed(TermText(terms[0]), TermTexts(terms[1..]));
    }
  }

  /** A name is reported exactly when it is not known and a token is that name, with or without a
      sign before it. */
  lemma {:induction false} ReportedExactlyWhenUnknown(tokens: seq<string>, lookup: string -> Option<Column>,
                                                      name: string)
    ensures name in UnknownOf(tokens, lookup) <==>
      && lookup(name).None?
      && ("+" + name in tokens || "-" + name in tokens
          || (name in tokens && (name == "" || (name[0] != '+' && name[0] != '-'))))
  {
    if tokens != [] {
      ReportedExactlyWhenUnknown(tokens[1..], lookup, name);
      NamesToken(tokens[0], name);
      HeadAndTail(tokens);
      hide NameOf;
      assert name in UnknownFor(tokens[0], lookup) <==> lookup(name).None? && NameOf(tokens[0]) == name;
    }
  }

  lemma {:induction false} NamesToken(token: string, name: string)
    ensures NameOf(token) == name <==>
      token == "+" + name || token == "-" + name
      || (token == name && (name == "" || (name[0] != '+' && name[0] != '-')))
  {
    assert ("+" + name)[1..] == name && ("-" + name)[1..] == name;
    if token != "" {
      assert token == [token[0]] + token[1..];
    }
  }

  /** A first sort_by word compiles to a clause that reads as its known names, in order and
      with their directions; there is no clause when it holds none. */
  lemma {:induction false} ClauseSaysTerms(word: string, lookup: string -> Option<Column>)
    requires forall name :: lookup(name).Some? ==> PlainColumn(lookup(name).value)
    ensures var terms := TermsOf(Tokens(Limited(word)), lookup);
      match OrderText(None, terms)
      case None => terms == []
      case Some(clause) => terms != [] && ReadOrder(clause) == Some(Meant(terms))
  {
    var terms := TermsOf(Tokens(Limited(word)), lookup);
    PlainTerms(Tokens(Limited(word)), lookup);
    ClauseReads(terms);
  }

  lemma {:induction false} PlainTerms(tokens: seq<string>, lookup: string -> Option<Column>)
    requires forall name :: lookup(name).Some? ==> PlainColumn(lookup(name).value)
    ensures forall i :: 0 <= i < |TermsOf(tokens, lookup)| ==> PlainColumn(TermsOf(tokens, lookup)[i].column)
  {
    hide PlainColumn;
    if tokens != [] {
      PlainTerms(tokens[1..], lookup);
    }
  }

  lemma {:induction false} ClauseReads(terms: seq<Term>)
    requires forall i :: 0 <= i < |terms| ==> PlainColumn(terms[i].column)
    ensures terms != [] ==>
      OrderText(None, terms).Some? && ReadOrder(OrderText(None, terms).value) == Some(Meant(terms))
  {
    if terms != [] {
      TermsRead(terms);
      SplitExactlyUndoesJoin(TermTexts(terms), ',');
      assert [] + TermTexts(terms) == TermTexts(terms);
    }
  }

  // ------------------------------------------------------------ client and server agree

  predicate Signed(item: SortItem) {
    item.order == '+' || item.order == '-'
  }

  /** The columns of the known names, in order and with the directions the signs mean. */
  function Wanted(items: seq<SortItem>, lookup: string -> Option<Column>): seq<Order> {
    if items == [] then []
    else
      (match lookup(items[0].friendlyName)
       case None => []
       case Some(column) => [Order(column.table, column.name, if items[0].order == '+' then Asc else Desc)])
      + Wanted(items[1..], lookup)
  }

  /** The names that are not known, in order. */
  function NotKnown(items: seq<SortItem>, lookup: string -> Option<Column>): seq<string> {
    if items == [] then []
    else
      (if lookup(items[0].friendlyName).None? then [items[0].friendlyName] else []) + NotKnown(items[1..], lookup)
  }

  lemma {:induction false} KeepAll(pieces: seq<string>)
    requires forall i :: 0 <= i < |pieces| ==> pieces[i] != ""
    ensures NonEmpty(pieces) == pieces
  {
    if pieces != [] {
      KeepAll(pieces[1..]);
    }
  }

  lemma {:induction false} ItemCompiles(item: SortItem, lookup: string -> Option<Column>)
    requires Signed(item)
    ensures var text := [item.order] + item.friendlyName;
      match lookup(item.friendlyName)
      case None => UnknownFor(text, lookup) == [item.friendlyName] && TermFor(text, lookup) == []
      case Some(column) =>
        UnknownFor(text, lookup) == []
        && TermFor(text, lookup) == [Term(column, if item.order == '+' then Asc else Desc)]
  {
    assert ([item.order] + item.friendlyName)[1..] == item.friendlyName;
  }

  lemma {:induction false} ItemsCompile(items: seq<SortItem>, lookup: string -> Option<Column>)
    requires forall i :: 0 <= i < |items| ==> Signed(items[i])
    ensures UnknownOf(ItemTexts(items), lookup) == NotKnown(items, lookup)
    ensures Meant(TermsOf(ItemTexts(items), lookup)) == Wanted(items, lookup)
  {
    if items != [] {
      ItemsCompile(items[1..], lookup);
      ItemCompiles(items[0], lookup);
      var text := [items[0].order] + items[0].friendlyName;
      var rest := ItemTexts(items[1..]);
      Headed(text, rest);
      hide TermFor, UnknownFor;
      assert TermsOf(ItemTexts(items), lookup) == TermFor(text, lookup) + TermsOf(rest, lookup);
      assert UnknownOf(ItemTexts(items), lookup) == UnknownFor(text, lookup) + UnknownOf(rest, lookup);
      MeantAfter(TermFor(text, lookup), TermsOf(rest, lookup));
    }
  }

  lemma {:induction false} MeantAfter(first: seq<Term>, rest: seq<Term>)
    requires |first| <= 1
    ensures Meant(first + rest) ==
      (if first == [] then [] else [Order(first[0].column.table, first[0].column.name, first[0].direction)])
      + Meant(rest)
  {
    if first == [] {
      assert first + rest == rest;
    } else {
      Headed(first[0], rest);
      assert first == [first[0]];
    }
  }

  /** What the client prints within 255 characters, naming columns without commas, the server
      compiles to the columns of the known names, in the same order and directions, and reports
      the others; there is no clause exactly when none is known. */
  method ClientSortReachesClause(sortBy: seq<SortItem>, lookup: string -> Option<Column>)
      returns (clause: Option<string>, unknown: seq<string>)
    requires |SortText(sortBy)| <= 255
    requires forall name :: lookup(name).Some? ==> PlainColumn(lookup(name).value)
    requires forall i :: 0 <= i < |sortBy| ==> Signed(sortBy[i]) && ',' !in sortBy[i].friendlyName
    ensures unknown == NotKnown(sortBy, lookup)
    ensures match clause
      case None => Wanted(sortBy, lookup) == []
      case Some(text) => Wanted(sortBy, lookup) != [] && ReadOrder(text) == Some(Wanted(sortBy, lookup))
  {
    var word := PrintSort(sortBy);
    ItemTokens(sortBy);
    ItemsCompile(sortBy, lookup);
    ClauseSaysTerms(word, lookup);
    LimitedIs(word);
    MeantNone(TermsOf(Tokens(Limited(word)), lookup));
    hide *;
    clause, unknown := CompileSort(None, word, lookup);
  }

  lemma {:induction false} MeantNone(terms: seq<Term>)
    ensures Meant(terms) == [] <==> terms == []
  {
  }

  lemma {:induction false} ItemTokens(items: seq<SortItem>)
    requires |SortText(items)| <= 255
    requires forall i :: 0 <= i < |items| ==> Signed(items[i]) && ',' !in items[i].friendlyName
    ensures Tokens(Limited(SortText(items))) == ItemTexts(items)
  {
    if items == [] {
      TokensNone();
    } else {
      var texts := ItemTexts(items);
      SplitExactlyUndoesJoin(texts, ',');
      KeepAll(texts);
    }
  }
}
