/** The server's JSON answers: the list of errors, the rows of a query result, and the two
    documents built from them. Each is printed by appending text to a buffer; reading the
    text back with the grammar's parser recovers what was printed. */
module JsonOutput {
  import opened Options
  import Decimals
  import ErrorLog
  import opened JsonString
  import opened JsonGrammar
  import opened Sequences

  type ErrorMessage = ErrorLog.ErrorMessage

  /** One result row; a NULL column is None. */
  type ResultRow = seq<Option<string>>

  /** A result table as the printer sees it: the query's id, its columns' names, the rows. */
  datatype Table = Table(id: string, names: seq<string>, rows: seq<ResultRow>)

  /** Every row has a cell for every column. */
  predicate RowsFit(t: Table) {
    forall r :: 0 <= r < |t.rows| ==> |t.rows[r]| == |t.names|
  }

  /** The configured names need no escaping; the printer puts them into the text as they are. */
  predicate PlainNames(t: Table) {
    Plain(t.id) && forall i :: 0 <= i < |t.names| ==> Plain(t.names[i])
  }

  /** Text that may stand in a JSON string as it is. */
  predicate Plain(s: string) {
    forall i :: 0 <= i < |s| ==> !NeedsEscape(s[i]) && !Control(s[i])
  }

  // ------------------------------------------------------------- printing

  function Quoted(body: string): string {
    "\"" + body + "\""
  }

  /** One line of an error record; `value` is printed as it is. */
  function FieldText(name: string, value: string, comma: string): string {
    "\n\t\t\t\t" + Quoted(name) + " : " + value + comma
  }

  /** The format of one error record, applied to the type and the escaped texts. */
  function ErrorRecord(kind: int, header: string, message: string): string {
    "\t\t\t{"
    + (FieldText("type", Decimals.Print(kind), ",")
    + (FieldText("header", Quoted(header), ",")
    + (FieldText("message", Quoted(message), "")
    + "\n\t\t\t}\n")))
  }

  function ErrorText(e: ErrorMessage): string {
    ErrorRecord(e.kind, Escape(e.header), Escape(e.message))
  }

  function ErrorListText(errors: seq<ErrorMessage>): string {
    if errors == [] then ""
    else ErrorText(errors[0]) + (if |errors| > 1 then "," else "") + "\n" + ErrorListText(errors[1..])
  }

  function ErrorsText(errors: seq<ErrorMessage>): string {
    "\t\t\"Errors\" : [\n" + ErrorListText(errors) + "\t\t]\n"
  }

  /** The %s of an escaped column: NULL is escaped to NULL and formatted as "(null)". */
  function Shown(cell: Option<string>): string {
    match cell
    case None => "(null)"
    case Some(s) => Escape(s)
  }

  function ColumnText(name: string, cell: Option<string>): string {
    "\t\t\t\t" + Quoted(name) + ": " + Quoted(Shown(cell))
  }

  function ColumnListText(names: seq<string>, row: ResultRow): string
    requires |names| == |row|
  {
    if names == [] then ""
    else ColumnText(names[0], row[0]) + (if |names| > 1 then ", " else "") + "\n" + ColumnListText(names[1..], row[1..])
  }

  function RowText(names: seq<string>, row: ResultRow): string
    requires |names| == |row|
  {
    "\t\t\t{\n" + ColumnListText(names, row) + "\t\t\t}"
  }

  function RowListText(names: seq<string>, rows: seq<ResultRow>): string
    requires forall r :: 0 <= r < |rows| ==> |rows[r]| == |names|
  {
    if rows == [] then ""
    else RowText(names, rows[0]) + (if |rows| > 1 then "," else "") + RowListText(names, rows[1..])
  }

  function StatusText(errors: seq<ErrorMessage>): string {
    "{\n" + ErrorsText(errors) + "\n}\n"
  }

  function QueryText(errors: seq<ErrorMessage>, t: Table): string
    requires RowsFit(t)
  {
    "{\n" + ErrorsText(errors) + TableText(t) + "\n}\n"
  }

  lemma {:induction false} Reassociate(before: string, part: string, comma: string, end: string, rest: string)
    ensures before + (part + comma + end + rest) == before + part + comma + end + rest
  {
  }

  lemma {:induction false} Reassociate3(before: string, part: string, comma: string, rest: string)
    ensures before + (part + comma + rest) == before + part + comma + rest
  {
  }

  /** error_messages_print_json_bb */
  method PrintErrors(errors: seq<ErrorMessage>) returns (bb: string)
    ensures bb == ErrorsText(errors)
  {
    bb := "\t\t\"Errors\" : [\n";
    assert errors[0..] == errors;
    for i := 0 to |errors|
      invariant bb + ErrorListText(errors[i..]) == "\t\t\"Errors\" : [\n" + ErrorListText(errors)
    {
      assert errors[i..][1..] == errors[i + 1..] && errors[i..][0] == errors[i];
      hide ErrorRecord;
      Reassociate(bb, ErrorText(errors[i]), if i + 1 < |errors| then "," else "", "\n", ErrorListText(errors[i + 1..]));
      var header := EscapeChar(Some(errors[i].header));
      var message := EscapeChar(Some(errors[i].message));
      bb := bb + ErrorRecord(errors[i].kind, header.value, message.value);
      bb := bb + if i + 1 != |errors| then "," else "";
      bb := bb + "\n";
    }
    bb := bb + "\t\t]\n";
  }

  /** output_status_json */
  method PrintStatus(errors: seq<ErrorMessage>) returns (bb: string)
    ensures bb == StatusText(errors)
  {
    bb := "{\n";
    var list := PrintErrors(errors);
    bb := bb + list;
    bb := bb + "\n}\n";
  }

  /** The column loop of output_db_result_json. */
  method PrintRow(names: seq<string>, row: ResultRow) returns (bb: string)
    requires |row| == |names|
    ensures bb == RowText(names, row)
  {
    bb := "\t\t\t{\n";
    assert names[0..] == names && row[0..] == row;
    for c := 0 to |names|
      invariant bb + ColumnListText(names[c..], row[c..]) == "\t\t\t{\n" + ColumnListText(names, row)
    {
      assert names[c..][1..] == names[c + 1..] && row[c..][1..] == row[c + 1..];
      hide Quoted;
      Reassociate(bb, ColumnText(names[c], row[c]), if c + 1 < |names| then ", " else "", "\n",
                  ColumnListText(names[c + 1..], row[c + 1..]));
      var cell := EscapeChar(row[c]);
      bb := bb + ("\t\t\t\t" + Quoted(names[c]) + ": " + Quoted(if cell.None? then "(null)" else cell.value));
      bb := bb + if c + 1 < |names| then ", " else "";
      bb := bb + "\n";
    }
    bb := bb + "\t\t\t}";
  }

  /** output_db_result_json */
  method PrintResult(t: Table) returns (bb: string)
    requires RowsFit(t)
    ensures bb == RowListText(t.names, t.rows)
  {
    bb := "";
    assert t.rows[0..] == t.rows;
    for r := 0 to |t.rows|
      invariant bb + RowListText(t.names, t.rows[r..]) == RowListText(t.names, t.rows)
    {
      assert t.rows[r..][1..] == t.rows[r + 1..];
      hide RowText;
      Reassociate3(bb, RowText(t.names, t.rows[r]), if r + 1 < |t.rows| then "," else "",
                   RowListText(t.names, t.rows[r + 1..]));
      var row := PrintRow(t.names, t.rows[r]);
      bb := bb + row;
      bb := bb + if r + 1 < |t.rows| then "," else "";
    }
  }

  /** output_db_query_json: without results only the errors are listed. */
  method PrintQuery(errors: seq<ErrorMessage>, results: Option<Table>) returns (bb: string)
    requires results.Some? ==> RowsFit(results.value)
    ensures bb == match results case Some(t) => QueryText(errors, t) case None => StatusText(errors)
  {
    bb := "{\n";
    var list := PrintErrors(errors);
    bb := bb + list;
    if results.Some? {
      ghost var before := bb;
      bb := bb + (",\n\t" + Quoted(results.value.id) + " :[\n");
      var rows := PrintResult(results.value);
      bb := bb + rows;
      bb := bb + "\n\t]";
      Reassociate3(before, ",\n\t" + Quoted(results.value.id) + " :[\n", rows, "\n\t]");
    }
    bb := bb + "\n}\n";
  }

  /** What is reported when there is nothing to print; the conversions stay as they are. */
  const NOTHING_TO_PRINT := ErrorLog.ErrorMessage(0, "Error printing query",
    "URI: %s, query->db_query: %d, query->results: %d, query->results->rows: %d")

  /** The answer to a query: its own errors and then the database's are listed. `database` is
      null for a query that is not known; reading its errors then fails, and so does copying
      more errors than fit. */
  method OutputQuery(query: ErrorLog.ErrorMessages, database: ErrorLog.ErrorMessages?, results: Option<Table>)
      returns (bb: string, failed: bool)
    requires query.Valid()
    requires database != null ==> database.Valid() && database != query && database.messages != query.messages
    requires results.Some? ==> RowsFit(results.value)
    modifies query`numErrors, query.messages
    ensures query.Valid()
    ensures var own := old(query.Entries())
        + if (database == null || results.None?) && old(query.numErrors) < 1024 then [NOTHING_TO_PRINT] else [];
      && (failed <==> database == null || |own| + old(database.numErrors) > 1024)
      && (!failed ==> query.Entries() == own + old(database.Entries()))
    ensures !failed ==> bb == match results
      case Some(t) => QueryText(query.Entries(), t)
      case None => StatusText(query.Entries())
  {
    hide StatusText, QueryText, RowsFit;
    bb, failed := "", true;
    if database == null || results.None? {
      var status := query.Add(NOTHING_TO_PRINT.kind, NOTHING_TO_PRINT.header, NOTHING_TO_PRINT.message);
    }
    if database != null {
      failed := query.Duplicate(database);
      if !failed {
        bb := PrintQuery(query.messages[..query.numErrors], results);
      }
    }
  }

  // ------------------------------------------------------------- layout

  /** Pieces, their text and their tokens. */
  datatype Part = Part(pieces: seq<Piece>, text: string, tokens: seq<Token>)

  /** The pieces are well laid out and open to anything that follows, and text and tokens are
      theirs. */
  ghost predicate PartOk(p: Part) {
    Laid(p.pieces) && !EndsInNumber(p.pieces) && Text(p.pieces) == p.text && Tokens(p.pieces) == p.tokens
  }

  function Join(a: Part, b: Part): Part {
    Part(a.pieces + b.pieces, a.text + b.text, a.tokens + b.tokens)
  }

  lemma {:induction false} JoinOk(a: Part, b: Part)
    requires PartOk(a) && PartOk(b)
    ensures PartOk(Join(a, b))
  {
    PiecesConcat(a.pieces, b.pieces);
    hide Laid, Text, Tokens;
  }

  lemma {:induction false} JoinOk3(a: Part, b: Part, c: Part)
    requires PartOk(a) && PartOk(b) && PartOk(c)
    ensures PartOk(Join(a, Join(b, c)))
  {
    hide PartOk, Join;
    JoinOk(b, c);
    JoinOk(a, Join(b, c));
  }

  lemma {:induction false} JoinOk5(a: Part, b: Part, c: Part, d: Part, e: Part)
    requires PartOk(a) && PartOk(b) && PartOk(c) && PartOk(d) && PartOk(e)
    ensures PartOk(Join(a, Join(b, Join(c, Join(d, e)))))
  {
    hide PartOk, Join;
    JoinOk3(c, d, e);
    JoinOk3(a, b, Join(c, Join(d, e)));
  }

  function Nothing(): Part {
    Part([], "", [])
  }

  /** One token with the whitespace printed around it. */
  function BlockPart(before: string, t: Token, after: string): Part {
    Part([Gap(before)] + ([Tok(t)] + ([Gap(after)] + [])), before + TokenText(t) + after, [t])
  }

  lemma {:induction false} BlockPartOk(before: string, t: Token, after: string)
    requires Blank(before) && Blank(after) && !t.NumberToken? && PieceOk(Tok(t))
    ensures PartOk(BlockPart(before, t, after))
  {
    PiecesCons(Gap(after), []);
    PiecesCons(Tok(t), [Gap(after)] + []);
    PiecesCons(Gap(before), [Tok(t)] + ([Gap(after)] + []));
    assert before + (TokenText(t) + (after + [])) == before + TokenText(t) + after;
  }

  /** A value of one token, and the comma behind it if there is a next member. */
  function ValuePart(value: Token, more: bool): Part {
    Part([Tok(value)] + (if more then [Tok(Comma)] else []),
         TokenText(value) + (if more then "," else ""),
         [value] + (if more then [Comma] else []))
  }

  lemma {:induction false} ValuePartOk(value: Token, more: bool)
    requires PieceOk(Tok(value)) && (!more ==> !value.NumberToken?)
    ensures PartOk(ValuePart(value, more))
  {
    PiecesCons(Tok(Comma), []);
    PiecesCons(Tok(value), if more then [Tok(Comma)] else []);
  }

  /** One line of an error record. */
  function FieldPart(name: string, value: Token, more: bool): Part {
    Join(BlockPart("\n\t\t\t\t", StringToken(name), " "), Join(BlockPart("", Colon, " "), ValuePart(value, more)))
  }

  lemma {:induction false} FieldPartOk(name: string, value: Token, more: bool)
    requires Scannable(name) && PieceOk(Tok(value)) && (!more ==> !value.NumberToken?)
    ensures PartOk(FieldPart(name, value, more))
    ensures FieldPart(name, value, more).text == FieldText(name, TokenText(value), if more then "," else "")
    ensures FieldPart(name, value, more).tokens == [StringToken(name), Colon, value] + if more then [Comma] else []
  {
    BlockPartOk("\n\t\t\t\t", StringToken(name), " ");
    BlockPartOk("", Colon, " ");
    ValuePartOk(value, more);
    hide PartOk, Scannable, Join;
    JoinOk3(BlockPart("\n\t\t\t\t", StringToken(name), " "), BlockPart("", Colon, " "), ValuePart(value, more));
    FieldIs(name, value, more);
  }

  lemma {:induction false} FieldIs(name: string, value: Token, more: bool)
    ensures FieldPart(name, value, more).text == FieldText(name, TokenText(value), if more then "," else "")
    ensures FieldPart(name, value, more).tokens == [StringToken(name), Colon, value] + if more then [Comma] else []
  {
    FieldTextIs(Quoted(name), TokenText(value), if more then "," else "");
    assert TokenText(StringToken(name)) == Quoted(name);
    hide TokenText, Quoted;
    var last := if more then [Comma] else [];
    assert [StringToken(name)] + ([Colon] + ([value] + last)) == [StringToken(name), Colon, value] + last;
  }

  lemma {:induction false} FieldTextIs(name: string, v: string, comma: string)
    ensures "\n\t\t\t\t" + name + " " + ("" + TokenText(Colon) + " " + (v + comma))
         == "\n\t\t\t\t" + name + " : " + v + comma
  {
  }

  // ------------------------------------------------------------- one error

  function ErrorTree(e: ErrorMessage): Syntax {
    Object([Member("type", Number(Decimals.Print(e.kind))),
            Member("header", String(Escape(e.header))),
            Member("message", String(Escape(e.message)))])
  }

  function ErrorTrees(errors: seq<ErrorMessage>): (vs: seq<Syntax>)
    ensures |vs| == |errors|
  {
    if errors == [] then [] else [ErrorTree(errors[0])] + ErrorTrees(errors[1..])
  }

  function ErrorPart(e: ErrorMessage): Part {
    RecordPart(NumberToken(Decimals.Print(e.kind)), StringToken(Escape(e.header)), StringToken(Escape(e.message)))
  }

  function RecordPart(kind: Token, header: Token, message: Token): Part {
    Join(BlockPart("\t\t\t", LBrace, ""),
      Join(FieldPart("type", kind, true),
        Join(FieldPart("header", header, true),
          Join(FieldPart("message", message, false), BlockPart("\n\t\t\t", RBrace, "\n")))))
  }

  lemma {:induction false} ErrorPartOk(e: ErrorMessage)
    ensures PartOk(ErrorPart(e))
    ensures ErrorPart(e).text == ErrorText(e) && ErrorPart(e).tokens == TokensOf(ErrorTree(e))
  {
    PrintIsNumber(e.kind);
    EscapeScannable(e.header);
    EscapeScannable(e.message);
    hide Escape, Decimals.Print, NumberOk, Scannable, PartOk, RecordPart, TokensOf;
    var kind, header := NumberToken(Decimals.Print(e.kind)), StringToken(Escape(e.header));
    RecordPartOk(kind, header, StringToken(Escape(e.message)));
    RecordTokens(Decimals.Print(e.kind), Escape(e.header), Escape(e.message));
  }

  lemma {:induction false} RecordPartOk(kind: Token, header: Token, message: Token)
    requires PieceOk(Tok(kind)) && PieceOk(Tok(header)) && PieceOk(Tok(message)) && !message.NumberToken?
    ensures PartOk(RecordPart(kind, header, message))
    ensures RecordPart(kind, header, message).text == "\t\t\t{"
      + (FieldText("type", TokenText(kind), ",")
      + (FieldText("header", TokenText(header), ",")
      + (FieldText("message", TokenText(message), "") + "\n\t\t\t}\n")))
    ensures RecordPart(kind, header, message).tokens == [LBrace]
      + (([StringToken("type"), Colon, kind] + [Comma])
      + (([StringToken("header"), Colon, header] + [Comma])
      + (([StringToken("message"), Colon, message] + []) + [RBrace])))
  {
    NamesScannable();
    hide Scannable, PartOk, FieldPart, FieldText, PieceOk;
    FieldPartOk("type", kind, true);
    FieldPartOk("header", header, true);
    FieldPartOk("message", message, false);
    BracesOk();
    hide TokenText, BlockPart;
    JoinOk5(BlockPart("\t\t\t", LBrace, ""), FieldPart("type", kind, true), FieldPart("header", header, true),
            FieldPart("message", message, false), BlockPart("\n\t\t\t", RBrace, "\n"));
  }

  lemma {:induction false} BracesOk()
    ensures PartOk(BlockPart("\t\t\t", LBrace, "")) && PartOk(BlockPart("\n\t\t\t", RBrace, "\n"))
    ensures BlockPart("\t\t\t", LBrace, "").text == "\t\t\t{" && BlockPart("\t\t\t", LBrace, "").tokens == [LBrace]
    ensures BlockPart("\n\t\t\t", RBrace, "\n").text == "\n\t\t\t}\n"
    ensures BlockPart("\n\t\t\t", RBrace, "\n").tokens == [RBrace]
  {
    hide PartOk;
    BlockPartOk("\t\t\t", LBrace, "");
    BlockPartOk("\n\t\t\t", RBrace, "\n");
  }

  lemma {:induction false} RecordTokens(kind: string, header: string, message: string)
    ensures TokensOf(Object([Member("type", Number(kind)), Member("header", String(header)),
                             Member("message", String(message))]))
      == [LBrace]
      + (([StringToken("type"), Colon, NumberToken(kind)] + [Comma])
      + (([StringToken("header"), Colon, StringToken(header)] + [Comma])
      + (([StringToken("message"), Colon, StringToken(message)] + []) + [RBrace])))
  {
    var t, h := Member("type", Number(kind)), Member("header", String(header));
    var m := Member("message", String(message));
    assert [t, h, m][1..] == [h, m] && [h, m][1..] == [m];
    assert MembersTokens([m]) == [StringToken("message"), Colon] + TokensOf(m.value);
    assert MembersTokens([h, m]) == [StringToken("header"), Colon] + TokensOf(h.value) + [Comma] + MembersTokens([m]);
    assert MembersTokens([t, h, m]) ==
      [StringToken("type"), Colon] + TokensOf(t.value) + [Comma] + MembersTokens([h, m]);
  }

  lemma {:induction false} PrintIsNumber(n: int)
    ensures NumberOk(Decimals.Print(n))
  {
    Decimals.ReadPrint(n);
    if n < 0 { assert Decimals.Print(n)[1..] == Decimals.PrintNat(-n); }
  }

  lemma {:induction false} NamesScannable()
    ensures Scannable("type") && Scannable("header") && Scannable("message") && Scannable("Errors")
  {
    hide Scannable, BodyOk, Escape, Unescape;
    assert Plain("type") && Plain("header") && Plain("message") && Plain("Errors");
    PlainScannable("type");
    PlainScannable("header");
    PlainScannable("message");
    PlainScannable("Errors");
  }

  /** Plain text is its own escape, legal content, and reads back as itself. */
  lemma {:induction false} PlainScannable(s: string)
    requires Plain(s)
    ensures Scannable(s) && BodyOk(s) && Escape(s) == s && Unescape(s) == s
  {
    if s != [] {
      assert forall i :: 0 <= i < |s[1..]| ==> s[1..][i] == s[i + 1];
      assert !NeedsEscape(s[0]) && !Control(s[0]);
      PlainScannable(s[1..]);
    }
  }

  // ------------------------------------------------------- lists

  /** What stands behind an item of a list: a comma if there is a next item, and a break. */
  function Separator(more: bool, space: string, newline: string): Part {
    if more then BlockPart("", Comma, space + newline) else Part([Gap(newline)] + [], newline, [])
  }

  lemma {:induction false} SeparatorOk(more: bool, space: string, newline: string)
    requires Blank(space) && Blank(newline)
    ensures PartOk(Separator(more, space, newline))
    ensures Separator(more, space, newline).text == (if more then "," + space else "") + newline
    ensures Separator(more, space, newline).tokens == if more then [Comma] else []
  {
    BlockPartOk("", Comma, space + newline);
    PiecesCons(Gap(newline), []);
    assert "" + TokenText(Comma) + (space + newline) == "," + space + newline;
  }

  function ListPart(items: seq<Part>, space: string, newline: string): Part {
    if items == [] then Nothing()
    else Join(items[0], Join(Separator(|items| > 1, space, newline), ListPart(items[1..], space, newline)))
  }

  /** An item's text, the comma if there is a next item, the break, and the rest. */
  function Followed(first: string, more: bool, space: string, newline: string, rest: string): string {
    first + (if more then "," + space else "") + newline + rest
  }

  function Behind(head: seq<Token>, more: bool, rest: seq<Token>): seq<Token> {
    if more then head + [Comma] + rest else head
  }

  /** A list begins with its first item, the comma if there are more, the break and the rest. */
  lemma {:induction false} ListPartOk(first: Part, rest: seq<Part>, space: string, newline: string)
    requires Blank(space) && Blank(newline) && PartOk(first) && PartOk(ListPart(rest, space, newline))
    ensures PartOk(ListPart([first] + rest, space, newline))
    ensures ListPart([first] + rest, space, newline).text ==
      Followed(first.text, |rest| > 0, space, newline, ListPart(rest, space, newline).text)
    ensures ListPart([first] + rest, space, newline).tokens ==
      Behind(first.tokens, |rest| > 0, ListPart(rest, space, newline).tokens)
  {
    SeparatorOk(|rest| > 0, space, newline);
    Headed(first, rest);
    hide PartOk, Separator;
    JoinOk3(first, Separator(|rest| > 0, space, newline), ListPart(rest, space, newline));
    ItemText(first.text, if |rest| > 0 then "," + space else "", newline, ListPart(rest, space, newline).text);
    ItemTokens(first.tokens, |rest| > 0, ListPart(rest, space, newline).tokens);
  }

  lemma {:induction false} ItemText(first: string, comma: string, newline: string, rest: string)
    ensures first + (comma + newline + rest) == first + comma + newline + rest
  {
  }

  lemma {:induction false} ItemTokens(head: seq<Token>, more: bool, rest: seq<Token>)
    requires !more ==> rest == []
    ensures head + ((if more then [Comma] else []) + rest) == Behind(head, more, rest)
  {
  }

  lemma {:induction false} Blanks()
    ensures Blank("") && Blank(" ") && Blank("\n")
  {
  }

  // ------------------------------------------------------- the list of errors

  function ErrorParts(errors: seq<ErrorMessage>): (parts: seq<Part>)
    ensures |parts| == |errors|
  {
    if errors == [] then [] else [ErrorPart(errors[0])] + ErrorParts(errors[1..])
  }

  function ErrorListPart(errors: seq<ErrorMessage>): Part {
    ListPart(ErrorParts(errors), "", "\n")
  }

  lemma {:induction false} ErrorListStep(errors: seq<ErrorMessage>)
    requires errors != []
    ensures var rest := errors[1..];
      && ErrorListPart(errors) == ListPart([ErrorPart(errors[0])] + ErrorParts(rest), "", "\n")
      && ErrorListPart(rest) == ListPart(ErrorParts(rest), "", "\n")
      && ErrorListText(errors) == Followed(ErrorText(errors[0]), |rest| > 0, "", "\n", ErrorListText(rest))
      && ElementsTokens(ErrorTrees(errors)) ==
        Behind(TokensOf(ErrorTree(errors[0])), |rest| > 0, ElementsTokens(ErrorTrees(rest)))
  {
    hide ErrorPart, ErrorText, ErrorTree, TokensOf, ListPart;
    Headed(ErrorTree(errors[0]), ErrorTrees(errors[1..]));
    assert "," + "" == ",";
  }

  lemma {:induction false} ErrorListOk(errors: seq<ErrorMessage>)
    ensures PartOk(ErrorListPart(errors))
    ensures ErrorListPart(errors).text == ErrorListText(errors)
    ensures ErrorListPart(errors).tokens == ElementsTokens(ErrorTrees(errors))
  {
    hide *;
    if errors == [] {
      NoErrors();
    } else {
      ErrorListOk(errors[1..]);
      ErrorPartOk(errors[0]);
      ErrorListStep(errors);
      Blanks();
      ListPartOk(ErrorPart(errors[0]), ErrorParts(errors[1..]), "", "\n");
    }
  }

  lemma {:induction false} NoErrors()
    ensures PartOk(ErrorListPart([])) && ErrorListPart([]).text == ErrorListText([])
    ensures ErrorListPart([]).tokens == ElementsTokens(ErrorTrees([]))
  {
  }

  function ErrorsPart(errors: seq<ErrorMessage>): Part {
    Join(BlockPart("\t\t", StringToken("Errors"), " "),
      Join(BlockPart("", Colon, " "),
        Join(BlockPart("", LBracket, "\n"),
          Join(ErrorListPart(errors), BlockPart("\t\t", RBracket, "\n")))))
  }

  lemma {:induction false} ErrorsOk(errors: seq<ErrorMessage>)
    ensures PartOk(ErrorsPart(errors)) && ErrorsPart(errors).text == ErrorsText(errors)
    ensures ErrorsPart(errors).tokens == [StringToken("Errors"), Colon] + TokensOf(Array(ErrorTrees(errors)))
  {
    ErrorListOk(errors);
    ErrorsPartsOk();
    ErrorsShape(errors);
    hide PartOk, Join, BlockPart, ErrorListPart, ErrorListText, ErrorTrees;
    JoinOk5(BlockPart("\t\t", StringToken("Errors"), " "), BlockPart("", Colon, " "), BlockPart("", LBracket, "\n"),
            ErrorListPart(errors), BlockPart("\t\t", RBracket, "\n"));
  }

  lemma {:induction false} ErrorsPartsOk()
    ensures PartOk(BlockPart("\t\t", StringToken("Errors"), " ")) && PartOk(BlockPart("", Colon, " "))
    ensures PartOk(BlockPart("", LBracket, "\n")) && PartOk(BlockPart("\t\t", RBracket, "\n"))
  {
    hide PartOk, BlockPart, Scannable;
    NamesScannable();
    BlockPartOk("\t\t", StringToken("Errors"), " ");
    BlockPartOk("", Colon, " ");
    BlockPartOk("", LBracket, "\n");
    BlockPartOk("\t\t", RBracket, "\n");
  }

  lemma {:induction false} ErrorsShape(errors: seq<ErrorMessage>)
    requires ErrorListPart(errors).text == ErrorListText(errors)
    requires ErrorListPart(errors).tokens == ElementsTokens(ErrorTrees(errors))
    ensures ErrorsPart(errors).text == ErrorsText(errors)
    ensures ErrorsPart(errors).tokens == [StringToken("Errors"), Colon] + TokensOf(Array(ErrorTrees(errors)))
  {
    hide ErrorListPart, ErrorListText, ErrorTrees, ElementsTokens, TokenText;
    ErrorsTextIs(ErrorListText(errors));
    var list := ElementsTokens(ErrorTrees(errors));
    assert [StringToken("Errors")] + ([Colon] + ([LBracket] + (list + [RBracket])))
        == [StringToken("Errors"), Colon] + ([LBracket] + list + [RBracket]);
  }

  lemma {:induction false} ErrorsTextIs(list: string)
    ensures "\t\t" + TokenText(StringToken("Errors")) + " " + ("" + TokenText(Colon) + " "
              + ("" + TokenText(LBracket) + "\n" + (list + ("\t\t" + TokenText(RBracket) + "\n"))))
         == "\t\t\"Errors\" : [\n" + list + "\t\t]\n"
  {
  }

  // ------------------------------------------------------- the result table

  function ColumnPart(name: string, cell: Option<string>): Part {
    Join(BlockPart("\t\t\t\t", StringToken(name), ""),
      Join(BlockPart("", Colon, " "), BlockPart("", StringToken(Shown(cell)), "")))
  }

  lemma {:induction false} ShownScannable(cell: Option<string>)
    ensures Scannable(Shown(cell))
  {
    match cell
    case None =>
      assert Plain("(null)");
      PlainScannable("(null)");
    case Some(s) => EscapeScannable(s);
  }

  lemma {:induction false} ColumnOk(name: string, cell: Option<string>)
    requires Scannable(name)
    ensures PartOk(ColumnPart(name, cell)) && ColumnPart(name, cell).text == ColumnText(name, cell)
    ensures ColumnPart(name, cell).tokens == [StringToken(name), Colon, StringToken(Shown(cell))]
  {
    hide Scannable, Shown, PartOk;
    ShownScannable(cell);
    BlockPartOk("\t\t\t\t", StringToken(name), "");
    BlockPartOk("", Colon, " ");
    BlockPartOk("", StringToken(Shown(cell)), "");
    JoinOk3(BlockPart("\t\t\t\t", StringToken(name), ""), BlockPart("", Colon, " "),
            BlockPart("", StringToken(Shown(cell)), ""));
    ColumnTextIs(Quoted(name), Quoted(Shown(cell)));
  }

  lemma {:induction false} ColumnTextIs(name: string, value: string)
    ensures "\t\t\t\t" + name + "" + ("" + TokenText(Colon) + " " + ("" + value + ""))
         == "\t\t\t\t" + name + ": " + value
  {
  }

  function RowMembers(names: seq<string>, row: ResultRow): (ms: seq<Member>)
    requires |names| == |row|
    ensures |ms| == |row|
  {
    if names == [] then []
    else [Member(names[0], String(Shown(row[0])))] + RowMembers(names[1..], row[1..])
  }

  function ColumnParts(names: seq<string>, row: ResultRow): (parts: seq<Part>)
    requires |names| == |row|
    ensures |parts| == |names|
  {
    if names == [] then [] else [ColumnPart(names[0], row[0])] + ColumnParts(names[1..], row[1..])
  }

  function ColumnListPart(names: seq<string>, row: ResultRow): Part
    requires |names| == |row|
  {
    ListPart(ColumnParts(names, row), " ", "\n")
  }

  lemma {:induction false} ColumnListStep(names: seq<string>, row: ResultRow)
    requires |names| == |row| && names != []
    ensures var name, rest := names[0], names[1..];
      && ColumnListPart(names, row) == ListPart([ColumnPart(name, row[0])] + ColumnParts(rest, row[1..]), " ", "\n")
      && ColumnListPart(rest, row[1..]) == ListPart(ColumnParts(rest, row[1..]), " ", "\n")
      && ColumnListText(names, row) ==
        Followed(ColumnText(name, row[0]), |rest| > 0, " ", "\n", ColumnListText(rest, row[1..]))
      && MembersTokens(RowMembers(names, row)) ==
        Behind([StringToken(name), Colon, StringToken(Shown(row[0]))], |rest| > 0,
               MembersTokens(RowMembers(rest, row[1..])))
  {
    hide ColumnPart, ColumnText, Shown, ListPart;
    Headed(Member(names[0], String(Shown(row[0]))), RowMembers(names[1..], row[1..]));
    assert "," + " " == ", ";
    assert [StringToken(names[0]), Colon] + [StringToken(Shown(row[0]))]
        == [StringToken(names[0]), Colon, StringToken(Shown(row[0]))];
  }

  lemma {:induction false} ColumnListOk(names: seq<string>, row: ResultRow)
    requires |names| == |row| && forall i :: 0 <= i < |names| ==> Scannable(names[i])
    ensures PartOk(ColumnListPart(names, row))
    ensures ColumnListPart(names, row).text == ColumnListText(names, row)
    ensures ColumnListPart(names, row).tokens == MembersTokens(RowMembers(names, row))
  {
    hide *;
    if names == [] {
      NoColumns();
    } else {
      ColumnListOk(names[1..], row[1..]);
      ColumnOk(names[0], row[0]);
      ColumnListStep(names, row);
      Blanks();
      ListPartOk(ColumnPart(names[0], row[0]), ColumnParts(names[1..], row[1..]), " ", "\n");
    }
  }

  lemma {:induction false} NoColumns()
    ensures PartOk(ColumnListPart([], [])) && ColumnListPart([], []).text == ColumnListText([], [])
    ensures ColumnListPart([], []).tokens == MembersTokens(RowMembers([], []))
  {
  }

  function RowPart(names: seq<string>, row: ResultRow): Part
    requires |names| == |row|
  {
    Join(BlockPart("\t\t\t", LBrace, "\n"), Join(ColumnListPart(names, row), BlockPart("\t\t\t", RBrace, "")))
  }

  lemma {:induction false} RowOk(names: seq<string>, row: ResultRow)
    requires |names| == |row| && forall i :: 0 <= i < |names| ==> Scannable(names[i])
    ensures PartOk(RowPart(names, row)) && RowPart(names, row).text == RowText(names, row)
    ensures RowPart(names, row).tokens == TokensOf(Object(RowMembers(names, row)))
  {
    hide PartOk, Scannable, ColumnListPart, ColumnListText, RowMembers, MembersTokens;
    ColumnListOk(names, row);
    BlockPartOk("\t\t\t", LBrace, "\n");
    BlockPartOk("\t\t\t", RBrace, "");
    JoinOk3(BlockPart("\t\t\t", LBrace, "\n"), ColumnListPart(names, row), BlockPart("\t\t\t", RBrace, ""));
    RowTextIs(ColumnListText(names, row));
    var list := MembersTokens(RowMembers(names, row));
    assert [LBrace] + (list + [RBrace]) == [LBrace] + list + [RBrace];
  }

  lemma {:induction false} RowTextIs(list: string)
    ensures "\t\t\t" + TokenText(LBrace) + "\n" + (list + ("\t\t\t" + TokenText(RBrace) + ""))
         == "\t\t\t{\n" + list + "\t\t\t}"
  {
  }

  function RowTrees(names: seq<string>, rows: seq<ResultRow>): (vs: seq<Syntax>)
    requires forall r :: 0 <= r < |rows| ==> |rows[r]| == |names|
    ensures |vs| == |rows|
  {
    if rows == [] then [] else [Object(RowMembers(names, rows[0]))] + RowTrees(names, rows[1..])
  }

  function RowParts(names: seq<string>, rows: seq<ResultRow>): (parts: seq<Part>)
    requires forall r :: 0 <= r < |rows| ==> |rows[r]| == |names|
    ensures |parts| == |rows|
  {
    if rows == [] then [] else [RowPart(names, rows[0])] + RowParts(names, rows[1..])
  }

  function RowListPart(names: seq<string>, rows: seq<ResultRow>): Part
    requires forall r :: 0 <= r < |rows| ==> |rows[r]| == |names|
  {
    ListPart(RowParts(names, rows), "", "")
  }

  lemma {:induction false} RowListStep(names: seq<string>, rows: seq<ResultRow>)
    requires rows != [] && forall r :: 0 <= r < |rows| ==> |rows[r]| == |names|
    ensures var rest := rows[1..];
      && RowListPart(names, rows) == ListPart([RowPart(names, rows[0])] + RowParts(names, rest), "", "")
      && RowListPart(names, rest) == ListPart(RowParts(names, rest), "", "")
      && RowListText(names, rows) ==
        Followed(RowText(names, rows[0]), |rest| > 0, "", "", RowListText(names, rest))
      && ElementsTokens(RowTrees(names, rows)) ==
        Behind(TokensOf(Object(RowMembers(names, rows[0]))), |rest| > 0, ElementsTokens(RowTrees(names, rest)))
  {
    hide RowPart, RowText, RowMembers, TokensOf, ListPart;
    Headed(Object(RowMembers(names, rows[0])), RowTrees(names, rows[1..]));
    var text, comma := RowText(names, rows[0]), if |rows| > 1 then "," else "";
    assert (if |rows| > 1 then "," + "" else "") == comma && text + comma + "" == text + comma;
  }

  lemma {:induction false} NoRows(names: seq<string>)
    ensures PartOk(RowListPart(names, [])) && RowListPart(names, []).text == RowListText(names, [])
    ensures RowListPart(names, []).tokens == ElementsTokens(RowTrees(names, []))
  {
  }

  lemma {:induction false} RowListOk(names: seq<string>, rows: seq<ResultRow>)
    requires forall r :: 0 <= r < |rows| ==> |rows[r]| == |names|
    requires forall i :: 0 <= i < |names| ==> Scannable(names[i])
    ensures PartOk(RowListPart(names, rows))
    ensures RowListPart(names, rows).text == RowListText(names, rows)
    ensures RowListPart(names, rows).tokens == ElementsTokens(RowTrees(names, rows))
  {
    hide *;
    if rows == [] {
      NoRows(names);
    } else {
      RowListOk(names, rows[1..]);
      RowOk(names, rows[0]);
      RowListStep(names, rows);
      Blanks();
      ListPartOk(RowPart(names, rows[0]), RowParts(names, rows[1..]), "", "");
    }
  }

  function TablePart(t: Table): Part
    requires RowsFit(t)
  {
    Join(BlockPart("", Comma, "\n\t"),
      Join(BlockPart("", StringToken(t.id), " "),
        Join(BlockPart("", Colon, ""),
          Join(BlockPart("", LBracket, "\n"),
            Join(RowListPart(t.names, t.rows), BlockPart("\n\t", RBracket, ""))))))
  }

  lemma {:induction false} TablePartsOk(t: Table)
    requires RowsFit(t) && PlainNames(t)
    ensures PartOk(BlockPart("", Comma, "\n\t")) && PartOk(BlockPart("", StringToken(t.id), " "))
    ensures PartOk(BlockPart("", Colon, "")) && PartOk(BlockPart("", LBracket, "\n"))
    ensures PartOk(BlockPart("\n\t", RBracket, ""))
    ensures forall i :: 0 <= i < |t.names| ==> Scannable(t.names[i])
  {
    hide PartOk, BlockPart, Scannable, Plain;
    PlainScannable(t.id);
    forall i | 0 <= i < |t.names|
      ensures Scannable(t.names[i])
    {
      PlainScannable(t.names[i]);
    }
    BlockPartOk("", Comma, "\n\t");
    BlockPartOk("", StringToken(t.id), " ");
    BlockPartOk("", Colon, "");
    BlockPartOk("", LBracket, "\n");
    BlockPartOk("\n\t", RBracket, "");
  }

  function TableText(t: Table): string
    requires RowsFit(t)
  {
    ",\n\t" + Quoted(t.id) + " :[\n" + RowListText(t.names, t.rows) + "\n\t]"
  }

  lemma {:induction false} TablePrints(t: Table)
    requires RowsFit(t) && PlainNames(t)
    ensures PartOk(TablePart(t)) && TablePart(t).text == TableText(t)
    ensures TablePart(t).tokens == [Comma, StringToken(t.id), Colon] + TokensOf(Array(RowTrees(t.names, t.rows)))
  {
    TablePartsOk(t);
    hide PartOk, Scannable, RowListPart, RowListText, TablePart, TableText, TokensOf, RowTrees;
    RowListOk(t.names, t.rows);
    TableJoinOk(t);
    TableShape(t);
  }

  lemma {:induction false} TableShape(t: Table)
    requires RowsFit(t) && PlainNames(t)
    requires RowListPart(t.names, t.rows).text == RowListText(t.names, t.rows)
    requires RowListPart(t.names, t.rows).tokens == ElementsTokens(RowTrees(t.names, t.rows))
    ensures TablePart(t).text == TableText(t)
    ensures TablePart(t).tokens == [Comma, StringToken(t.id), Colon] + TokensOf(Array(RowTrees(t.names, t.rows)))
  {
    hide RowListPart, RowListText, RowTrees, ElementsTokens, Plain;
    TableTextIs(Quoted(t.id), RowListText(t.names, t.rows));
    TableTokensAre(StringToken(t.id), ElementsTokens(RowTrees(t.names, t.rows)));
  }

  lemma {:induction false} TableTokensAre(id: Token, list: seq<Token>)
    ensures [Comma] + ([id] + ([Colon] + ([LBracket] + (list + [RBracket]))))
         == [Comma, id, Colon] + ([LBracket] + list + [RBracket])
  {
  }

  lemma {:induction false} TableJoinOk(t: Table)
    requires RowsFit(t) && PlainNames(t) && PartOk(RowListPart(t.names, t.rows))
    ensures PartOk(TablePart(t))
  {
    TablePartsOk(t);
    hide PartOk, Scannable, Join, BlockPart, RowListPart;
    JoinOk5(BlockPart("", StringToken(t.id), " "), BlockPart("", Colon, ""), BlockPart("", LBracket, "\n"),
            RowListPart(t.names, t.rows), BlockPart("\n\t", RBracket, ""));
    JoinOk(BlockPart("", Comma, "\n\t"),
           Join(BlockPart("", StringToken(t.id), " "),
             Join(BlockPart("", Colon, ""),
               Join(BlockPart("", LBracket, "\n"),
                 Join(RowListPart(t.names, t.rows), BlockPart("\n\t", RBracket, ""))))));
  }

  lemma {:induction false} TableTextIs(id: string, list: string)
    ensures "" + TokenText(Comma) + "\n\t" + ("" + id + " " + ("" + TokenText(Colon) + ""
              + ("" + TokenText(LBracket) + "\n" + (list + ("\n\t" + TokenText(RBracket) + "")))))
         == ",\n\t" + id + " :[\n" + list + "\n\t]"
  {
  }

  // ------------------------------------------------------- the documents

  function StatusTree(errors: seq<ErrorMessage>): Syntax {
    Object([Member("Errors", Array(ErrorTrees(errors)))])
  }

  function QueryTree(errors: seq<ErrorMessage>, t: Table): Syntax
    requires RowsFit(t)
  {
    Object([Member("Errors", Array(ErrorTrees(errors))), Member(t.id, Array(RowTrees(t.names, t.rows)))])
  }

  function Document(body: Part): Part {
    Join(BlockPart("", LBrace, "\n"), Join(body, BlockPart("\n", RBrace, "\n")))
  }

  lemma {:induction false} DocumentOk(body: Part)
    requires PartOk(body)
    ensures PartOk(Document(body)) && Document(body).text == "{\n" + body.text + "\n}\n"
    ensures Document(body).tokens == [LBrace] + body.tokens + [RBrace]
  {
    BlockPartOk("", LBrace, "\n");
    BlockPartOk("\n", RBrace, "\n");
    hide PartOk;
    JoinOk3(BlockPart("", LBrace, "\n"), body, BlockPart("\n", RBrace, "\n"));
    assert "" + TokenText(LBrace) + "\n" == "{\n" && "\n" + TokenText(RBrace) + "\n" == "\n}\n";
    assert "{\n" + (body.text + "\n}\n") == "{\n" + body.text + "\n}\n";
    assert [LBrace] + (body.tokens + [RBrace]) == [LBrace] + body.tokens + [RBrace];
  }

  lemma {:induction false} StatusDocument(errors: seq<ErrorMessage>)
    ensures var d := Document(ErrorsPart(errors));
      PartOk(d) && d.text == StatusText(errors) && d.tokens == TokensOf(StatusTree(errors))
  {
    hide PartOk, Document, ErrorsPart, ErrorsText, ErrorTrees, ElementsTokens;
    ErrorsOk(errors);
    DocumentOk(ErrorsPart(errors));
    assert MembersTokens(StatusTree(errors).members) ==
      [StringToken("Errors"), Colon] + TokensOf(Array(ErrorTrees(errors)));
  }

  lemma {:induction false} QueryDocument(errors: seq<ErrorMessage>, t: Table)
    requires RowsFit(t) && PlainNames(t)
    ensures var d := Document(Join(ErrorsPart(errors), TablePart(t)));
      PartOk(d) && d.text == QueryText(errors, t) && d.tokens == TokensOf(QueryTree(errors, t))
  {
    hide PartOk, Document, ErrorsPart, ErrorsText, ErrorTrees, ElementsTokens, TablePart, TableText, RowTrees, Plain;
    ErrorsOk(errors);
    TablePrints(t);
    var a, b := ErrorsPart(errors), TablePart(t);
    JoinOk(a, b);
    DocumentOk(Join(a, b));
    assert "{\n" + (a.text + b.text) + "\n}\n" == "{\n" + a.text + b.text + "\n}\n";
    QueryTokens(Array(ErrorTrees(errors)), StringToken(t.id), Array(RowTrees(t.names, t.rows)));
  }

  lemma {:induction false} QueryTokens(list: Syntax, id: Token, rows: Syntax)
    requires id.StringToken?
    ensures TokensOf(Object([Member("Errors", list), Member(id.body, rows)]))
         == [LBrace]
          + (([StringToken("Errors"), Colon] + TokensOf(list)) + ([Comma, id, Colon] + TokensOf(rows))) + [RBrace]
  {
    var ms := [Member("Errors", list), Member(id.body, rows)];
    assert ms[1..] == [ms[1]];
    assert MembersTokens([ms[1]]) == [id, Colon] + TokensOf(rows);
    assert MembersTokens(ms) == [StringToken("Errors"), Colon] + TokensOf(list) + [Comma] + MembersTokens([ms[1]]);
    assert [Comma] + ([id, Colon] + TokensOf(rows)) == [Comma, id, Colon] + TokensOf(rows);
  }

  // ------------------------------------------------------- clean contents

  predicate ErrorClean(e: ErrorMessage) {
    Clean(e.header) && Clean(e.message)
  }

  predicate ErrorsClean(errors: seq<ErrorMessage>) {
    forall i :: 0 <= i < |errors| ==> ErrorClean(errors[i])
  }

  predicate CellClean(cell: Option<string>) {
    cell.Some? ==> Clean(cell.value)
  }

  predicate RowClean(row: ResultRow) {
    forall c :: 0 <= c < |row| ==> CellClean(row[c])
  }

  predicate RowsClean(rows: seq<ResultRow>) {
    forall r :: 0 <= r < |rows| ==> RowClean(rows[r])
  }

  lemma {:induction false} StringsOkConcat(a: seq<Token>, b: seq<Token>)
    ensures StringsOk(a + b) <==> StringsOk(a) && StringsOk(b)
  {
    var all := a + b;
    assert forall i :: 0 <= i < |a| ==> all[i] == a[i];
    assert forall i :: 0 <= i < |b| ==> all[|a| + i] == b[i];
  }

  lemma {:induction false} StringsOkOne(t: Token)
    ensures StringsOk([t]) <==> TokenOk(t)
  {
    assert [t][0] == t;
  }

  lemma {:induction false} FrameStringsOk(open: Token, ts: seq<Token>, close: Token)
    requires TokenOk(open) && TokenOk(close)
    ensures StringsOk([open] + ts + [close]) <==> StringsOk(ts)
  {
    StringsOkOne(open);
    StringsOkOne(close);
    StringsOkConcat([open], ts);
    StringsOkConcat([open] + ts, [close]);
  }

  lemma {:induction false} ObjectStringsOk(ms: seq<Member>)
    ensures StringsOk(TokensOf(Object(ms))) <==> StringsOk(MembersTokens(ms))
  {
    hide StringsOk, MembersTokens;
    FrameStringsOk(LBrace, MembersTokens(ms), RBrace);
  }

  lemma {:induction false} ArrayStringsOk(es: seq<Syntax>)
    ensures StringsOk(TokensOf(Array(es))) <==> StringsOk(ElementsTokens(es))
  {
    hide StringsOk, ElementsTokens;
    FrameStringsOk(LBracket, ElementsTokens(es), RBracket);
  }

  lemma {:induction false} MembersStringsOk(ms: seq<Member>)
    requires ms != []
    ensures StringsOk(MembersTokens(ms)) <==>
      BodyOk(ms[0].name) && StringsOk(TokensOf(ms[0].value)) && StringsOk(MembersTokens(ms[1..]))
  {
    var head, value := [StringToken(ms[0].name), Colon], TokensOf(ms[0].value);
    assert head[0] == StringToken(ms[0].name) && head[1] == Colon;
    assert StringsOk(head) <==> BodyOk(ms[0].name);
    StringsOkConcat(head, value);
    StringsOkOne(Comma);
    StringsOkConcat(head + value, [Comma]);
    StringsOkConcat(head + value + [Comma], MembersTokens(ms[1..]));
    hide TokensOf, BodyOk;
    assert |ms| == 1 ==> MembersTokens(ms[1..]) == [];
  }

  lemma {:induction false} ErrorStringsOk(e: ErrorMessage)
    ensures StringsOk(TokensOf(ErrorTree(e))) <==> ErrorClean(e)
  {
    PrintIsNumber(e.kind);
    EscapeRoundTrip(e.header);
    EscapeRoundTrip(e.message);
    NamesOk();
    hide Escape, BodyOk, Decimals.Print, NumberOk, Clean;
    RecordStringsOk(Decimals.Print(e.kind), Escape(e.header), Escape(e.message));
  }

  lemma {:induction false} RecordStringsOk(kind: string, header: string, message: string)
    requires NumberOk(kind) && BodyOk("type") && BodyOk("header") && BodyOk("message")
    ensures
      var ms := [Member("type", Number(kind)), Member("header", String(header)), Member("message", String(message))];
      StringsOk(TokensOf(Object(ms))) <==> BodyOk(header) && BodyOk(message)
  {
    var ms := [Member("type", Number(kind)), Member("header", String(header)), Member("message", String(message))];
    StringsOkOne(NumberToken(kind));
    StringsOkOne(StringToken(header));
    StringsOkOne(StringToken(message));
    hide StringsOk, MembersTokens, BodyOk, NumberOk;
    ObjectStringsOk(ms);
    MembersStringsOk(ms);
    assert ms[1..] == [ms[1], ms[2]] && [ms[1], ms[2]][1..] == [ms[2]] && [ms[2]][1..] == [];
    MembersStringsOk([ms[1], ms[2]]);
    MembersStringsOk([ms[2]]);
    NoStrings();
  }

  lemma {:induction false} NoStrings()
    ensures StringsOk(MembersTokens([])) && StringsOk(ElementsTokens([]))
  {
  }

  lemma {:induction false} NamesOk()
    ensures BodyOk("type") && BodyOk("header") && BodyOk("message") && BodyOk("Errors") && BodyOk("(null)")
  {
    hide Scannable, BodyOk, Escape, Unescape;
    assert Plain("type") && Plain("header") && Plain("message") && Plain("Errors") && Plain("(null)");
    PlainScannable("type");
    PlainScannable("header");
    PlainScannable("message");
    PlainScannable("Errors");
    PlainScannable("(null)");
  }

  lemma {:induction false} CleanErrorsStep(errors: seq<ErrorMessage>)
    requires errors != []
    ensures ErrorsClean(errors) <==> ErrorClean(errors[0]) && ErrorsClean(errors[1..])
  {
    hide ErrorClean;
    assert errors == [errors[0]] + errors[1..];
  }

  lemma {:induction false} ErrorsStringsOk(errors: seq<ErrorMessage>)
    ensures StringsOk(ElementsTokens(ErrorTrees(errors))) <==> ErrorsClean(errors)
  {
    if errors != [] {
      hide StringsOk, ElementsTokens, TokensOf, ErrorClean, ErrorTree, ErrorsClean;
      ErrorsStringsOk(errors[1..]);
      ErrorStringsOk(errors[0]);
      Headed(ErrorTree(errors[0]), ErrorTrees(errors[1..]));
      ElementsStringsOk(ErrorTrees(errors));
      CleanErrorsStep(errors);
    }
  }

  lemma {:induction false} ElementsStringsOk(vs: seq<Syntax>)
    requires vs != []
    ensures StringsOk(ElementsTokens(vs)) <==> StringsOk(TokensOf(vs[0])) && StringsOk(ElementsTokens(vs[1..]))
  {
    hide TokensOf;
    if |vs| > 1 {
      StringsOkOne(Comma);
      StringsOkConcat(TokensOf(vs[0]), [Comma]);
      StringsOkConcat(TokensOf(vs[0]) + [Comma], ElementsTokens(vs[1..]));
    }
  }

  lemma {:induction false} CellStringOk(cell: Option<string>)
    ensures BodyOk(Shown(cell)) <==> CellClean(cell)
    ensures CellClean(cell) ==> Unescape(Shown(cell)) == match cell case None => "(null)" case Some(s) => s
  {
    match cell
    case None =>
      NamesOk();
      assert Plain("(null)");
      PlainScannable("(null)");
    case Some(s) => EscapeRoundTrip(s);
  }

  lemma {:induction false} RowStringsOk(names: seq<string>, row: ResultRow)
    requires |names| == |row| && forall i :: 0 <= i < |names| ==> Plain(names[i])
    ensures StringsOk(MembersTokens(RowMembers(names, row))) <==> RowClean(row)
  {
    if names != [] {
      assert forall i :: 0 <= i < |names[1..]| ==> names[1..][i] == names[i + 1];
      RowStringsOk(names[1..], row[1..]);
      CellStringOk(row[0]);
      PlainScannable(names[0]);
      var ms := RowMembers(names, row);
      assert ms[0] == Member(names[0], String(Shown(row[0]))) && ms[1..] == RowMembers(names[1..], row[1..]);
      MembersStringsOk(ms);
      StringsOkOne(StringToken(Shown(row[0])));
      hide StringsOk, MembersTokens, RowMembers, BodyOk, CellClean, Shown;
      CleanRowStep(row);
    }
  }

  lemma {:induction false} CleanRowStep(row: ResultRow)
    requires row != []
    ensures RowClean(row) <==> CellClean(row[0]) && RowClean(row[1..])
  {
    hide CellClean;
    assert row == [row[0]] + row[1..];
  }

  lemma {:induction false} CleanRowsStep(rows: seq<ResultRow>)
    requires rows != []
    ensures RowsClean(rows) <==> RowClean(rows[0]) && RowsClean(rows[1..])
  {
    hide RowClean;
    assert rows == [rows[0]] + rows[1..];
  }

  lemma {:induction false} RowsStringsOk(names: seq<string>, rows: seq<ResultRow>)
    requires forall r :: 0 <= r < |rows| ==> |rows[r]| == |names|
    requires forall i :: 0 <= i < |names| ==> Plain(names[i])
    ensures StringsOk(ElementsTokens(RowTrees(names, rows))) <==> RowsClean(rows)
  {
    if rows != [] {
      hide StringsOk, ElementsTokens, TokensOf, MembersTokens, RowMembers, Plain;
      RowsStringsOk(names, rows[1..]);
      RowStringsOk(names, rows[0]);
      ObjectStringsOk(RowMembers(names, rows[0]));
      var vs := RowTrees(names, rows);
      assert vs[0] == Object(RowMembers(names, rows[0])) && vs[1..] == RowTrees(names, rows[1..]);
      ElementsStringsOk(vs);
      CleanRowsStep(rows);
    }
  }

  // ------------------------------------------------------- what the text means

  lemma {:induction false} PartParses(d: Part, v: Syntax)
    requires PartOk(d) && d.tokens == TokensOf(v)
    ensures Parse(d.text) == if StringsOk(TokensOf(v)) then Some(v) else None
  {
    LaidTextParses(d.pieces, v);
  }

  /** The status answer parses exactly when no header or message holds a control character,
      and then as the list of its errors. */
  lemma {:induction false} StatusParses(errors: seq<ErrorMessage>)
    ensures Parse(StatusText(errors)) == if ErrorsClean(errors) then Some(StatusTree(errors)) else None
  {
    hide *;
    StatusDocument(errors);
    PartParses(Document(ErrorsPart(errors)), StatusTree(errors));
    StatusStringsOk(errors);
  }

  lemma {:induction false} StatusStringsOk(errors: seq<ErrorMessage>)
    ensures StringsOk(TokensOf(StatusTree(errors))) <==> ErrorsClean(errors)
  {
    NamesOk();
    ErrorsStringsOk(errors);
    hide StringsOk, TokensOf, MembersTokens, ElementsTokens, ErrorTrees, BodyOk, ErrorsClean;
    var ms := [Member("Errors", Array(ErrorTrees(errors)))];
    ObjectStringsOk(ms);
    MembersStringsOk(ms);
    ArrayStringsOk(ErrorTrees(errors));
    NoStrings();
    assert ms[1..] == [];
  }

  /** The query answer parses exactly when no error text and no cell holds a control
      character, and then as its errors and its rows. */
  lemma {:induction false} QueryParses(errors: seq<ErrorMessage>, t: Table)
    requires RowsFit(t) && PlainNames(t)
    ensures Parse(QueryText(errors, t))
         == if ErrorsClean(errors) && RowsClean(t.rows) then Some(QueryTree(errors, t)) else None
  {
    hide *;
    QueryDocument(errors, t);
    PartParses(Document(Join(ErrorsPart(errors), TablePart(t))), QueryTree(errors, t));
    QueryStringsOk(errors, t);
  }

  lemma {:induction false} QueryStringsOk(errors: seq<ErrorMessage>, t: Table)
    requires RowsFit(t) && PlainNames(t)
    ensures StringsOk(TokensOf(QueryTree(errors, t))) <==> ErrorsClean(errors) && RowsClean(t.rows)
  {
    NamesOk();
    PlainScannable(t.id);
    ErrorsStringsOk(errors);
    RowsStringsOk(t.names, t.rows);
    hide StringsOk, TokensOf, MembersTokens, ElementsTokens, ErrorTrees, RowTrees, BodyOk, ErrorsClean, RowsClean,
      Plain;
    var es, rs := ErrorTrees(errors), RowTrees(t.names, t.rows);
    var ms := [Member("Errors", Array(es)), Member(t.id, Array(rs))];
    assert ms[1..] == [ms[1]] && [ms[1]][1..] == [];
    ObjectStringsOk(ms);
    MembersStringsOk(ms);
    MembersStringsOk([ms[1]]);
    ArrayStringsOk(es);
    ArrayStringsOk(rs);
    NoStrings();
  }

  // ------------------------------------------------------- reading back

  function ReadError(v: Syntax): Option<ErrorMessage> {
    if v.Object? && |v.members| == 3
       && v.members[0].name == "type" && v.members[0].value.Number? && NumberOk(v.members[0].value.text)
       && v.members[1].name == "header" && v.members[1].value.String? && BodyOk(v.members[1].value.body)
       && v.members[2].name == "message" && v.members[2].value.String? && BodyOk(v.members[2].value.body)
    then
      Some(ErrorLog.ErrorMessage(Decimals.ReadInt(v.members[0].value.text),
                        Unescape(v.members[1].value.body), Unescape(v.members[2].value.body)))
    else None
  }

  function ReadErrorList(vs: seq<Syntax>): Option<seq<ErrorMessage>> {
    if vs == [] then Some([])
    else
      match (ReadError(vs[0]), ReadErrorList(vs[1..]))
      case (Some(e), Some(es)) => Some([e] + es)
      case _ => None
  }

  /** The "Errors" of an answer. */
  function ReadErrors(v: Syntax): Option<seq<ErrorMessage>> {
    if v.Object? && v.members != [] && v.members[0].name == "Errors" && v.members[0].value.Array?
    then ReadErrorList(v.members[0].value.elements)
    else None
  }

  /** The values of one row, if it has exactly the named columns. */
  function ReadRow(names: seq<string>, ms: seq<Member>): Option<seq<string>> {
    if names == [] then if ms == [] then Some([]) else None
    else if ms == [] || ms[0].name != names[0] || !ms[0].value.String? || !BodyOk(ms[0].value.body) then None
    else
      match ReadRow(names[1..], ms[1..])
      case None => None
      case Some(vs) => Some([Unescape(ms[0].value.body)] + vs)
  }

  function ReadRowList(names: seq<string>, vs: seq<Syntax>): Option<seq<seq<string>>> {
    if vs == [] then Some([])
    else if !vs[0].Object? then None
    else
      match (ReadRow(names, vs[0].members), ReadRowList(names, vs[1..]))
      case (Some(r), Some(rs)) => Some([r] + rs)
      case _ => None
  }

  /** The rows an answer lists under the query's id. */
  function ReadRows(id: string, names: seq<string>, v: Syntax): Option<seq<seq<string>>> {
    if v.Object? && |v.members| == 2 && v.members[1].name == id && v.members[1].value.Array?
    then ReadRowList(names, v.members[1].value.elements)
    else None
  }

  /** A row as the client sees it: NULL arrives as the text (null). */
  function SeenRow(row: ResultRow): seq<string> {
    seq(|row|, c requires 0 <= c < |row| => match row[c] case None => "(null)" case Some(s) => s)
  }

  function SeenRows(rows: seq<ResultRow>): seq<seq<string>> {
    seq(|rows|, r requires 0 <= r < |rows| => SeenRow(rows[r]))
  }

  lemma {:induction false} ReadErrorTree(e: ErrorMessage)
    requires ErrorClean(e)
    ensures ReadError(ErrorTree(e)) == Some(e)
  {
    PrintIsNumber(e.kind);
    Decimals.ReadPrint(e.kind);
    EscapeRoundTrip(e.header);
    EscapeRoundTrip(e.message);
  }

  lemma {:induction false} ReadErrorTrees(errors: seq<ErrorMessage>)
    requires ErrorsClean(errors)
    ensures ReadErrorList(ErrorTrees(errors)) == Some(errors)
  {
    if errors != [] {
      hide ErrorTree, ReadError, ErrorClean, ErrorsClean;
      CleanErrorsStep(errors);
      ReadErrorTree(errors[0]);
      ReadErrorTrees(errors[1..]);
      Headed(ErrorTree(errors[0]), ErrorTrees(errors[1..]));
      HeadAndTail(errors);
    }
  }

  lemma {:induction false} ReadRowMembers(names: seq<string>, row: ResultRow)
    requires |names| == |row| && RowClean(row)
    ensures ReadRow(names, RowMembers(names, row)) == Some(SeenRow(row))
  {
    if names == [] {
      assert SeenRow(row) == [];
    } else {
      hide CellClean, RowClean, Shown, Unescape, BodyOk;
      CleanRowStep(row);
      ReadRowMembers(names[1..], row[1..]);
      CellStringOk(row[0]);
      ReadRowStep(names, Shown(row[0]), RowMembers(names[1..], row[1..]));
      assert SeenRow(row) == [SeenRow(row)[0]] + SeenRow(row[1..]);
    }
  }

  lemma {:induction false} ReadRowStep(names: seq<string>, body: string, rest: seq<Member>)
    requires names != [] && BodyOk(body) && ReadRow(names[1..], rest).Some?
    ensures ReadRow(names, [Member(names[0], String(body))] + rest) ==
      Some([Unescape(body)] + ReadRow(names[1..], rest).value)
  {
    hide BodyOk, Unescape;
    Headed(Member(names[0], String(body)), rest);
  }

  lemma {:induction false} ReadRowTrees(names: seq<string>, rows: seq<ResultRow>)
    requires (forall r :: 0 <= r < |rows| ==> |rows[r]| == |names|) && RowsClean(rows)
    ensures ReadRowList(names, RowTrees(names, rows)) == Some(SeenRows(rows))
  {
    if rows != [] {
      hide ReadRow, RowMembers, RowClean, RowsClean, SeenRow;
      CleanRowsStep(rows);
      ReadRowTrees(names, rows[1..]);
      ReadRowMembers(names, rows[0]);
      Headed(Object(RowMembers(names, rows[0])), RowTrees(names, rows[1..]));
      assert SeenRows(rows) == [SeenRow(rows[0])] + SeenRows(rows[1..]);
    }
  }

  /** Reading the status answer gives back the errors, in order, exactly when none of their
      texts holds a control character; otherwise the answer is no JSON text at all. */
  lemma {:induction false} StatusReadsBack(errors: seq<ErrorMessage>)
    ensures Parse(StatusText(errors)).Some? <==> ErrorsClean(errors)
    ensures ErrorsClean(errors) ==> ReadErrors(Parse(StatusText(errors)).value) == Some(errors)
    ensures ErrorsClean(errors) <==> exists v :: Derives(v, StatusText(errors))
  {
    StatusParses(errors);
    if ErrorsClean(errors) {
      ReadErrorTrees(errors);
      ParseExactlyDerives(StatusText(errors), StatusTree(errors));
    } else {
      forall v
        ensures !Derives(v, StatusText(errors))
      {
        ParseExactlyDerives(StatusText(errors), v);
      }
    }
  }

  /** Reading the query answer gives back the errors and the rows, in order, exactly when no
      text in them holds a control character. */
  lemma {:induction false} QueryReadsBack(errors: seq<ErrorMessage>, t: Table)
    requires RowsFit(t) && PlainNames(t)
    ensures Parse(QueryText(errors, t)).Some? <==> ErrorsClean(errors) && RowsClean(t.rows)
    ensures ErrorsClean(errors) && RowsClean(t.rows) ==>
      var v := Parse(QueryText(errors, t)).value;
      ReadErrors(v) == Some(errors) && ReadRows(t.id, t.names, v) == Some(SeenRows(t.rows))
    ensures ErrorsClean(errors) && RowsClean(t.rows) <==> exists v :: Derives(v, QueryText(errors, t))
  {
    QueryParses(errors, t);
    if ErrorsClean(errors) && RowsClean(t.rows) {
      ReadErrorTrees(errors);
      ReadRowTrees(t.names, t.rows);
      ParseExactlyDerives(QueryText(errors, t), QueryTree(errors, t));
    } else {
      forall v
        ensures !Derives(v, QueryText(errors, t))
      {
        ParseExactlyDerives(QueryText(errors, t), v);
      }
    }
  }
}
