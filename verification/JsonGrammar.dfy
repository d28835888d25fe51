/** The part of the JSON grammar of RFC 8259 that the server's printers use (objects, arrays,
    strings, integers, insignificant whitespace), and a parser that accepts exactly it. */
module JsonGrammar {
  import opened Options
  import Decimals
  import Sequences
  import opened JsonString

  datatype Token =
    | LBrace | RBrace | LBracket | RBracket | Colon | Comma
    | StringToken(body: string)
    | NumberToken(text: string)

  /** A value as written: string contents and numerals are kept as text. */
  datatype Syntax =
    | Object(members: seq<Member>)
    | Array(elements: seq<Syntax>)
    | String(body: string)
    | Number(text: string)
  datatype Member = Member(name: string, value: Syntax)

  // ------------------------------------------------------------- grammar

  predicate IsSpace(c: char) {
    c == ' ' || c == '\t' || c == '\n' || c == '\r'
  }

  predicate Blank(s: string) {
    forall i :: 0 <= i < |s| ==> IsSpace(s[i])
  }

  /** int of section 6, with its optional minus. */
  predicate NumberOk(t: string) {
    var digits := if t != [] && t[0] == '-' then t[1..] else t;
    digits != [] && Decimals.AllDigits(digits) && (|digits| > 1 ==> digits[0] != '0')
  }

  predicate TokenOk(t: Token) {
    match t
    case StringToken(b) => BodyOk(b)
    case NumberToken(n) => NumberOk(n)
    case _ => true
  }

  function TokenText(t: Token): (s: string)
    ensures !t.NumberToken? ==> s != []
  {
    match t
    case LBrace => "{"
    case RBrace => "}"
    case LBracket => "["
    case RBracket => "]"
    case Colon => ":"
    case Comma => ","
    case StringToken(b) => "\"" + b + "\""
    case NumberToken(n) => n
  }

  /** Text cut into tokens and the whitespace around them. */
  datatype Piece = Gap(space: string) | Tok(token: Token)

  function Text(ps: seq<Piece>): string {
    if ps == [] then [] else PieceText(ps[0]) + Text(ps[1..])
  }

  function PieceText(p: Piece): string {
    match p
    case Gap(w) => w
    case Tok(t) => TokenText(t)
  }

  function Tokens(ps: seq<Piece>): seq<Token> {
    if ps == [] then []
    else if ps[0].Tok? then [ps[0].token] + Tokens(ps[1..])
    else Tokens(ps[1..])
  }

  /** A gap is whitespace; a numeral and the frame of a string are well formed. */
  predicate PieceOk(p: Piece) {
    match p
    case Gap(w) => Blank(w)
    case Tok(t) => (t.NumberToken? ==> NumberOk(t.text)) && (t.StringToken? ==> Scannable(t.body))
  }

  /** Good pieces, with no numeral run together with what follows it. */
  predicate Laid(ps: seq<Piece>) {
    ps != [] ==>
      && PieceOk(ps[0]) && Laid(ps[1..])
      && (ps[0].Tok? && ps[0].token.NumberToken? && |ps| > 1 ==> Separates(ps[1]))
  }

  /** No string of the text contains a control character. */
  predicate StringsOk(ts: seq<Token>) {
    forall i :: 0 <= i < |ts| ==> TokenOk(ts[i])
  }

  /** Text that does not begin with a digit. */
  predicate Separates(p: Piece) {
    match p
    case Gap(w) => w != []
    case Tok(t) => t.NumberToken? ==> t.text != [] && t.text[0] == '-'
  }

  /** The token string of a value, section 2 to 5. */
  function TokensOf(v: Syntax): (ts: seq<Token>)
    ensures ts != []
  {
    match v
    case String(b) => [StringToken(b)]
    case Number(n) => [NumberToken(n)]
    case Array(es) => [LBracket] + ElementsTokens(es) + [RBracket]
    case Object(ms) => [LBrace] + MembersTokens(ms) + [RBrace]
  }

  function ElementsTokens(es: seq<Syntax>): seq<Token> {
    if es == [] then []
    else if |es| == 1 then TokensOf(es[0])
    else TokensOf(es[0]) + [Comma] + ElementsTokens(es[1..])
  }

  function MembersTokens(ms: seq<Member>): seq<Token> {
    if ms == [] then []
    else
      var first := [StringToken(ms[0].name), Colon] + TokensOf(ms[0].value);
      if |ms| == 1 then first else first + [Comma] + MembersTokens(ms[1..])
  }

  /** text is a JSON text of the value v. */
  ghost predicate Derives(v: Syntax, text: string) {
    exists ps: seq<Piece> :: Derivation(v, text, ps)
  }

  ghost predicate Derivation(v: Syntax, text: string, ps: seq<Piece>) {
    && Laid(ps) && StringsOk(Tokens(ps))
    && Text(ps) == text && Tokens(ps) == TokensOf(v)
  }

  // ------------------------------------------------------------- lexer

  /** Length of the string content at the front of s, if a closing quote follows it. */
  function StringEnd(s: string): (r: Option<nat>)
    ensures r.Some? ==> r.value < |s| && s[r.value] == '"'
  {
    if s == [] then None
    else if s[0] == '"' then Some(0)
    else if s[0] == '\\' then
      if |s| < 2 || EscapeMeaning(s[1]).None? then None
      else
        match StringEnd(s[2..])
        case None => None
        case Some(n) => Some(n + 2)
    else if Control(s[0]) then None
    else
      match StringEnd(s[1..])
      case None => None
      case Some(n) => Some(n + 1)
  }

  function DigitsEnd(s: string): (n: nat)
    ensures n <= |s| && Decimals.AllDigits(s[..n])
    ensures n < |s| ==> !Decimals.IsDigit(s[n])
  {
    if s == [] || !Decimals.IsDigit(s[0]) then 0
    else
      var n := DigitsEnd(s[1..]);
      assert s[..n + 1] == [s[0]] + s[1..][..n];
      n + 1
  }

  function Structural(c: char): Option<Token> {
    match c
    case '{' => Some(LBrace)
    case '}' => Some(RBrace)
    case '[' => Some(LBracket)
    case ']' => Some(RBracket)
    case ':' => Some(Colon)
    case ',' => Some(Comma)
    case _ => None
  }

  /** The first token of s and its length; s starts with no whitespace. */
  function FirstToken(s: string): (r: Option<(Token, nat)>)
    requires s != []
    ensures r.Some? ==> 0 < r.value.1 <= |s|
  {
    if Structural(s[0]).Some? then Some((Structural(s[0]).value, 1))
    else if s[0] == '"' then
      match StringEnd(s[1..])
      case None => None
      case Some(n) => Some((StringToken(s[1..n + 1]), n + 2))
    else
      var minus := if s[0] == '-' then 1 else 0;
      var n := minus + DigitsEnd(s[minus..]);
      if NumberOk(s[..n]) then Some((NumberToken(s[..n]), n)) else None
  }

  function Lex(s: string): Option<seq<Token>> {
    if s == [] then Some([])
    else if IsSpace(s[0]) then Lex(s[1..])
    else
      match FirstToken(s)
      case None => None
      case Some((t, n)) =>
        match Lex(s[n..])
        case None => None
        case Some(ts) => Some([t] + ts)
  }

  // ------------------------------------------------------------- parser

  function ParseValue(ts: seq<Token>): (r: Option<(Syntax, seq<Token>)>)
    ensures r.Some? ==> |r.value.1| < |ts|
    decreases |ts|, 0
  {
    if ts == [] then None
    else
      match ts[0]
      case StringToken(b) => Some((String(b), ts[1..]))
      case NumberToken(n) => Some((Number(n), ts[1..]))
      case LBracket =>
        if |ts| > 1 && ts[1] == RBracket then Some((Array([]), ts[2..]))
        else
          (match ParseElements(ts[1..])
           case None => None
           case Some((es, rest)) => Some((Array(es), rest)))
      case LBrace =>
        if |ts| > 1 && ts[1] == RBrace then Some((Object([]), ts[2..]))
        else
          (match ParseMembers(ts[1..])
           case None => None
           case Some((ms, rest)) => Some((Object(ms), rest)))
      case _ => None
  }

  function ParseElements(ts: seq<Token>): (r: Option<(seq<Syntax>, seq<Token>)>)
    ensures r.Some? ==> |r.value.1| < |ts|
    decreases |ts|, 1
  {
    match ParseValue(ts)
    case None => None
    case Some((v, rest)) =>
      if rest == [] then None
      else if rest[0] == RBracket then Some(([v], rest[1..]))
      else if rest[0] != Comma then None
      else
        match ParseElements(rest[1..])
        case None => None
        case Some((vs, rest')) => Some(([v] + vs, rest'))
  }

  function ParseMembers(ts: seq<Token>): (r: Option<(seq<Member>, seq<Token>)>)
    ensures r.Some? ==> |r.value.1| < |ts|
    decreases |ts|, 1
  {
    if |ts| < 2 || !ts[0].StringToken? || ts[1] != Colon then None
    else
      match ParseValue(ts[2..])
      case None => None
      case Some((v, rest)) =>
        if rest == [] then None
        else if rest[0] == RBrace then Some(([Member(ts[0].body, v)], rest[1..]))
        else if rest[0] != Comma then None
        else
          match ParseMembers(rest[1..])
          case None => None
          case Some((ms, rest')) => Some(([Member(ts[0].body, v)] + ms, rest'))
  }

  function Parse(text: string): Option<Syntax> {
    match Lex(text)
    case None => None
    case Some(ts) =>
      match ParseValue(ts)
      case None => None
      case Some((v, rest)) => if rest == [] then Some(v) else None
  }

  // ------------------------------------------------ the parser is complete

  lemma {:induction false} ParseComplete(v: Syntax, rest: seq<Token>)
    ensures ParseValue(TokensOf(v) + rest) == Some((v, rest))
    decreases v, 1
  {
    var ts := TokensOf(v) + rest;
    match v
    case String(_) =>
    case Number(_) =>
    case Array(es) =>
      var inner := ElementsTokens(es) + ([RBracket] + rest);
      assert ts == [LBracket] + inner;
      if es != [] {
        ParseElementsComplete(es, rest);
        FirstOfValue(es[0]);
        assert ts[1] == TokensOf(es[0])[0];
        assert ts[1..] == inner;
      }
    case Object(ms) =>
      var inner := MembersTokens(ms) + ([RBrace] + rest);
      assert ts == [LBrace] + inner;
      if ms != [] {
        ParseMembersComplete(ms, rest);
        assert ts[1] == StringToken(ms[0].name);
        assert ts[1..] == inner;
      }
  }

  lemma {:induction false} FirstOfValue(v: Syntax)
    ensures TokensOf(v)[0] != RBracket
  {
  }

  lemma {:induction false} ParseElementsComplete(es: seq<Syntax>, rest: seq<Token>)
    requires es != []
    ensures ParseElements(ElementsTokens(es) + ([RBracket] + rest)) == Some((es, rest))
    decreases es
  {
    if |es| == 1 {
      ParseComplete(es[0], [RBracket] + rest);
      assert es == [es[0]];
      assert ([RBracket] + rest)[1..] == rest;
    } else {
      var more := ElementsTokens(es[1..]) + ([RBracket] + rest);
      ParseComplete(es[0], [Comma] + more);
      ParseElementsComplete(es[1..], rest);
      Regroup(TokensOf(es[0]), Comma, ElementsTokens(es[1..]), [RBracket] + rest);
      assert ([Comma] + more)[1..] == more;
      assert es == [es[0]] + es[1..];
    }
  }

  lemma {:induction false} Regroup(a: seq<Token>, t: Token, b: seq<Token>, c: seq<Token>)
    ensures (a + [t] + b) + c == a + ([t] + (b + c))
  {
  }

  lemma {:induction false} RegroupMember(name: Token, a: seq<Token>, t: Token, b: seq<Token>, c: seq<Token>)
    ensures ([name, Colon] + a + [t] + b) + c == [name, Colon] + (a + ([t] + (b + c)))
    ensures ([name, Colon] + a) + c == [name, Colon] + (a + c)
  {
  }

  lemma {:induction false} ParseMembersComplete(ms: seq<Member>, rest: seq<Token>)
    requires ms != []
    ensures ParseMembers(MembersTokens(ms) + ([RBrace] + rest)) == Some((ms, rest))
    decreases ms
  {
    var name, value := StringToken(ms[0].name), ms[0].value;
    assert ms == [Member(ms[0].name, value)] + ms[1..];
    var more := MembersTokens(ms[1..]) + ([RBrace] + rest);
    RegroupMember(name, TokensOf(value), Comma, MembersTokens(ms[1..]), [RBrace] + rest);
    if |ms| == 1 {
      assert ms == [Member(ms[0].name, value)];
      ParseComplete(value, [RBrace] + rest);
      assert ([RBrace] + rest)[1..] == rest;
      ParseMember(name.body, TokensOf(value) + ([RBrace] + rest));
    } else {
      ParseComplete(value, [Comma] + more);
      ParseMembersComplete(ms[1..], rest);
      assert ([Comma] + more)[1..] == more;
      ParseMember(name.body, TokensOf(value) + ([Comma] + more));
    }
  }

  lemma {:induction false} ParseMember(name: string, after: seq<Token>)
    ensures var ts := [StringToken(name), Colon] + after;
      |ts| >= 2 && ts[0] == StringToken(name) && ts[1] == Colon && ts[2..] == after
  {
  }

  // ------------------------------------------------ the parser is sound

  lemma {:induction false} ParseSound(ts: seq<Token>)
    requires ParseValue(ts).Some?
    ensures var (v, rest) := ParseValue(ts).value; ts == TokensOf(v) + rest
    decreases |ts|, 0
  {
    var (v, rest) := ParseValue(ts).value;
    match ts[0]
    case StringToken(_) =>
    case NumberToken(_) =>
    case LBracket =>
      if !(|ts| > 1 && ts[1] == RBracket) {
        ParseElementsSound(ts[1..]);
        assert ts == [ts[0]] + ts[1..];
      }
    case LBrace =>
      if !(|ts| > 1 && ts[1] == RBrace) {
        ParseMembersSound(ts[1..]);
        assert ts == [ts[0]] + ts[1..];
      }
  }

  lemma {:induction false} ParseElementsSound(ts: seq<Token>)
    requires ParseElements(ts).Some?
    ensures var (es, rest) := ParseElements(ts).value;
      es != [] && ts == ElementsTokens(es) + ([RBracket] + rest)
    decreases |ts|, 1
  {
    ParseSound(ts);
    var (v, rest) := ParseValue(ts).value;
    assert rest == [rest[0]] + rest[1..];
    if rest[0] == Comma {
      ParseElementsSound(rest[1..]);
      var (es, rest') := ParseElements(rest[1..]).value;
      assert ([v] + es)[1..] == es;
      Regroup(TokensOf(v), Comma, ElementsTokens(es), [RBracket] + rest');
    }
  }

  lemma {:induction false} ParseMembersSound(ts: seq<Token>)
    requires ParseMembers(ts).Some?
    ensures var (ms, rest) := ParseMembers(ts).value;
      ms != [] && ts == MembersTokens(ms) + ([RBrace] + rest)
    decreases |ts|, 1
  {
    ParseSound(ts[2..]);
    var (v, rest) := ParseValue(ts[2..]).value;
    assert ts == [ts[0], ts[1]] + ts[2..];
    assert rest == [rest[0]] + rest[1..];
    if rest[0] == Comma {
      ParseMembersSound(rest[1..]);
      var (ms, rest') := ParseMembers(rest[1..]).value;
      assert ([Member(ts[0].body, v)] + ms)[1..] == ms;
      RegroupMember(ts[0], TokensOf(v), Comma, MembersTokens(ms), [RBrace] + rest');
    } else {
      RegroupMember(ts[0], TokensOf(v), Comma, [], [RBrace] + rest[1..]);
    }
  }

  // ------------------------------------------------ the lexer is exact

  lemma {:induction false} StringEndExact(b: string, s: string)
    requires Scannable(b)
    ensures StringEnd(b + "\"" + s) == if BodyOk(b) then Some(|b|) else None
  {
    var t := b + "\"" + s;
    if b == [] {
    } else if b[0] == '\\' {
      assert t[2..] == b[2..] + "\"" + s;
      StringEndExact(b[2..], s);
    } else {
      assert t[1..] == b[1..] + "\"" + s;
      StringEndExact(b[1..], s);
    }
  }

  lemma {:induction false} DigitsEndExact(d: string, s: string)
    requires Decimals.AllDigits(d) && (s == [] || !Decimals.IsDigit(s[0]))
    ensures DigitsEnd(d + s) == |d|
  {
    if d == [] {
      assert d + s == s;
    } else {
      assert (d + s)[1..] == d[1..] + s;
      DigitsEndExact(d[1..], s);
    }
  }

  lemma {:induction false} FirstNumber(n: string, s: string)
    requires NumberOk(n) && (s == [] || !Decimals.IsDigit(s[0]))
    ensures n + s != [] && !IsSpace(n[0]) && FirstToken(n + s) == Some((NumberToken(n), |n|))
  {
    var minus := if n[0] == '-' then 1 else 0;
    assert (n + s)[minus..] == n[minus..] + s;
    DigitsEndExact(n[minus..], s);
    assert (n + s)[..|n|] == n;
    assert n[0] == '-' || Decimals.IsDigit(n[0]) by {
      if minus == 0 { assert n[0..] == n; }
    }
  }

  lemma {:induction false} FirstString(b: string, s: string)
    requires Scannable(b)
    ensures var t := TokenText(StringToken(b)) + s;
      t != [] && !IsSpace(t[0])
      && FirstToken(t) == if BodyOk(b) then Some((StringToken(b), |b| + 2)) else None
  {
    var t := TokenText(StringToken(b)) + s;
    assert t[1..] == b + "\"" + s;
    StringEndExact(b, s);
    assert t[1..|b| + 1] == b;
  }

  lemma {:induction false} FirstStructural(t: Token, s: string)
    requires !t.StringToken? && !t.NumberToken?
    ensures var text := TokenText(t) + s;
      text != [] && !IsSpace(text[0]) && FirstToken(text) == Some((t, 1)) && |TokenText(t)| == 1
  {
  }

  lemma {:induction false} LexGap(w: string, s: string)
    requires Blank(w)
    ensures Lex(w + s) == Lex(s)
  {
    if w == [] {
      assert w + s == s;
    } else {
      assert (w + s)[1..] == w[1..] + s;
      LexGap(w[1..], s);
    }
  }

  lemma {:induction false} LexToken(t: Token, s: string)
    requires PieceOk(Tok(t)) && (t.NumberToken? ==> s == [] || !Decimals.IsDigit(s[0]))
    ensures Lex(TokenText(t) + s)
         == if TokenOk(t) && Lex(s).Some? then Some([t] + Lex(s).value) else None
  {
    match t
    case StringToken(b) => FirstString(b, s);
    case NumberToken(n) => FirstNumber(n, s);
    case _ => FirstStructural(t, s);
    var text := TokenText(t) + s;
    assert text[|TokenText(t)|..] == s;
  }

  /** Laid-out text lexes to its tokens, and fails exactly when some string holds a control
      character. */
  lemma {:induction false} LexText(ps: seq<Piece>)
    requires Laid(ps)
    ensures Lex(Text(ps)) == if StringsOk(Tokens(ps)) then Some(Tokens(ps)) else None
  {
    if ps != [] {
      var rest := Text(ps[1..]);
      LexText(ps[1..]);
      match ps[0]
      case Gap(w) => LexGap(w, rest);
      case Tok(t) =>
        if t.NumberToken? && |ps| > 1 { TextStart(ps[1..]); }
        LexToken(t, rest);
        StringsOkCons(t, Tokens(ps[1..]));
    }
  }

  lemma {:induction false} StringsOkCons(t: Token, ts: seq<Token>)
    ensures StringsOk([t] + ts) <==> TokenOk(t) && StringsOk(ts)
  {
    var all := [t] + ts;
    assert forall i :: 0 <= i < |ts| ==> ts[i] == all[i + 1];
    assert all[0] == t;
  }

  lemma {:induction false} TextStart(ps: seq<Piece>)
    requires ps != [] && PieceOk(ps[0]) && Separates(ps[0])
    ensures Text(ps) != [] && !Decimals.IsDigit(Text(ps)[0])
  {
    var t := PieceText(ps[0]);
    assert Text(ps)[0] == t[0];
  }

  /** The pieces of a text that lexes. */
  ghost function PiecesOf(s: string): seq<Piece>
    requires Lex(s).Some?
  {
    if s == [] then []
    else if IsSpace(s[0]) then [Gap([s[0]])] + PiecesOf(s[1..])
    else [Tok(FirstToken(s).value.0)] + PiecesOf(s[FirstToken(s).value.1..])
  }

  lemma {:induction false} StringEndOk(s: string)
    requires StringEnd(s).Some?
    ensures BodyOk(s[..StringEnd(s).value]) && Scannable(s[..StringEnd(s).value])
  {
    var n := StringEnd(s).value;
    if s[0] == '"' {
    } else if s[0] == '\\' {
      StringEndOk(s[2..]);
      assert s[..n][2..] == s[2..][..n - 2];
    } else {
      StringEndOk(s[1..]);
      assert s[..n][1..] == s[1..][..n - 1];
    }
  }

  lemma {:induction false} FirstStringOk(s: string)
    requires s != [] && s[0] == '"' && StringEnd(s[1..]).Some?
    ensures var n := StringEnd(s[1..]).value;
      && PieceOk(Tok(StringToken(s[1..n + 1]))) && TokenOk(StringToken(s[1..n + 1]))
      && TokenText(StringToken(s[1..n + 1])) == s[..n + 2]
  {
    StringEndOk(s[1..]);
    hide StringEnd, BodyOk, Scannable;
    var n := StringEnd(s[1..]).value;
    assert s[1..n + 1] == s[1..][..n];
  }

  lemma {:induction false} FirstNumberEnds(s: string)
    requires s != []
    ensures var minus := if s[0] == '-' then 1 else 0;
      var n := minus + DigitsEnd(s[minus..]);
      n < |s| ==> !Decimals.IsDigit(s[n])
  {
    hide DigitsEnd, Decimals.IsDigit;
    var minus := if s[0] == '-' then 1 else 0;
    var n := DigitsEnd(s[minus..]);
    assert minus + n < |s| ==> s[minus..][n] == s[minus + n];
  }

  lemma {:induction false} FirstTokenOk(s: string)
    requires s != [] && FirstToken(s).Some?
    ensures var (t, n) := FirstToken(s).value;
      && PieceOk(Tok(t)) && TokenOk(t) && TokenText(t) == s[..n]
      && (t.NumberToken? && n < |s| ==> !Decimals.IsDigit(s[n]))
  {
    hide StringEnd, DigitsEnd, NumberOk, BodyOk, Scannable, Decimals.IsDigit;
    if s[0] == '"' {
      FirstStringOk(s);
    } else if Structural(s[0]).None? {
      FirstNumberEnds(s);
    }
  }

  /** ps lays s out, and starts with a digit only if s does. */
  ghost predicate LaysOut(s: string, ps: seq<Piece>, ts: seq<Token>) {
    && Text(ps) == s && Tokens(ps) == ts && Laid(ps) && StringsOk(ts)
    && (ps != [] ==> s != [] && (Decimals.IsDigit(s[0]) || Separates(ps[0])))
  }

  lemma {:induction false} LaysOutSpace(c: char, s: string, ps: seq<Piece>, ts: seq<Token>)
    requires IsSpace(c) && LaysOut(s, ps, ts)
    ensures LaysOut([c] + s, [Gap([c])] + ps, ts)
  {
    PiecesCons(Gap([c]), ps);
  }

  lemma {:induction false} LaysOutToken(t: Token, s: string, ps: seq<Piece>, ts: seq<Token>)
    requires PieceOk(Tok(t)) && TokenOk(t) && LaysOut(s, ps, ts)
    requires t.NumberToken? && s != [] ==> !Decimals.IsDigit(s[0])
    ensures LaysOut(TokenText(t) + s, [Tok(t)] + ps, [t] + ts)
  {
    PiecesCons(Tok(t), ps);
    StringsOkCons(t, ts);
    if t.NumberToken? {
      FirstNumber(t.text, []);
      assert t.text[0..] == t.text;
      assert (TokenText(t) + s)[0] == t.text[0];
    } else {
      assert TokenText(t) != [];
    }
  }

  lemma {:induction false} LaysOutFirst(s: string, ps: seq<Piece>, ts: seq<Token>)
    requires s != [] && FirstToken(s).Some? && LaysOut(s[FirstToken(s).value.1..], ps, ts)
    ensures var t := FirstToken(s).value.0;
      LaysOut(s, [Tok(t)] + ps, [t] + ts)
  {
    FirstTokenOk(s);
    hide LaysOut, PieceOk, TokenOk, FirstToken;
    var (t, n) := FirstToken(s).value;
    assert s == s[..n] + s[n..];
    assert n < |s| ==> s[n..][0] == s[n];
    LaysOutToken(t, s[n..], ps, ts);
  }

  lemma {:induction false} LexPieces(s: string)
    requires Lex(s).Some?
    ensures LaysOut(s, PiecesOf(s), Lex(s).value)
  {
    if s == [] {
    } else if IsSpace(s[0]) {
      LexPieces(s[1..]);
      LaysOutSpace(s[0], s[1..], PiecesOf(s[1..]), Lex(s[1..]).value);
      assert s == [s[0]] + s[1..];
    } else {
      var (t, n) := FirstToken(s).value;
      LexPieces(s[n..]);
      LaysOutFirst(s, PiecesOf(s[n..]), Lex(s[n..]).value);
    }
  }

  lemma {:induction false} PiecesCons(p: Piece, ps: seq<Piece>)
    ensures Text([p] + ps) == PieceText(p) + Text(ps)
    ensures Tokens([p] + ps) == (if p.Tok? then [p.token] else []) + Tokens(ps)
    ensures PieceOk(p) && Laid(ps) && (p.Tok? && p.token.NumberToken? && ps != [] ==> Separates(ps[0]))
        ==> Laid([p] + ps)
  {
    assert ([p] + ps)[1..] == ps;
  }

  predicate EndsInNumber(ps: seq<Piece>) {
    ps != [] && ps[|ps| - 1].Tok? && ps[|ps| - 1].token.NumberToken?
  }

  lemma {:induction false} PiecesConcat(ps: seq<Piece>, qs: seq<Piece>)
    ensures Text(ps + qs) == Text(ps) + Text(qs)
    ensures Tokens(ps + qs) == Tokens(ps) + Tokens(qs)
    ensures Laid(ps) && Laid(qs) && !EndsInNumber(ps) ==> Laid(ps + qs)
  {
    TextConcat(ps, qs);
    TokensConcat(ps, qs);
    if Laid(ps) && Laid(qs) && !EndsInNumber(ps) {
      LaidConcat(ps, qs);
    }
  }

  lemma {:induction false} TextConcat(ps: seq<Piece>, qs: seq<Piece>)
    ensures Text(ps + qs) == Text(ps) + Text(qs)
  {
    hide PieceText;
    if ps == [] {
      assert ps + qs == qs;
    } else {
      TextConcat(ps[1..], qs);
      Sequences.SplitOff(ps, qs);
      Sequences.Associates(PieceText(ps[0]), Text(ps[1..]), Text(qs));
    }
  }

  lemma {:induction false} TokensConcat(ps: seq<Piece>, qs: seq<Piece>)
    ensures Tokens(ps + qs) == Tokens(ps) + Tokens(qs)
  {
    if ps == [] {
      assert ps + qs == qs;
    } else {
      TokensConcat(ps[1..], qs);
      Sequences.SplitOff(ps, qs);
      if ps[0].Tok? {
        Sequences.Associates([ps[0].token], Tokens(ps[1..]), Tokens(qs));
      }
    }
  }

  lemma {:induction false} LaidConcat(ps: seq<Piece>, qs: seq<Piece>)
    requires Laid(ps) && Laid(qs) && !EndsInNumber(ps)
    ensures Laid(ps + qs)
  {
    hide PieceOk, Separates;
    if ps == [] {
      assert ps + qs == qs;
    } else {
      LaidConcat(ps[1..], qs);
      Sequences.SplitOff(ps, qs);
      assert |ps| > 1 ==> (ps + qs)[1] == ps[1];
    }
  }

  /** The parser accepts exactly the texts the grammar derives, with the derived value. */
  lemma {:induction false} ParseExactlyDerives(text: string, v: Syntax)
    ensures Parse(text) == Some(v) <==> Derives(v, text)
  {
    if Parse(text) == Some(v) {
      var ts := Lex(text).value;
      ParseSound(ts);
      LexPieces(text);
      assert ts == TokensOf(v) + [] == TokensOf(v);
      assert Derivation(v, text, PiecesOf(text));
    }
    if Derives(v, text) {
      var ps: seq<Piece> :| Derivation(v, text, ps);
      LexText(ps);
      ParseComplete(v, []);
      assert TokensOf(v) + [] == TokensOf(v);
    }
  }

  /** For text laid out to carry a value, being a JSON text means having clean strings. */
  lemma {:induction false} LaidTextParses(ps: seq<Piece>, v: Syntax)
    requires Laid(ps) && Tokens(ps) == TokensOf(v)
    ensures Parse(Text(ps)) == if StringsOk(Tokens(ps)) then Some(v) else None
  {
    LexText(ps);
    ParseComplete(v, []);
    assert TokensOf(v) + [] == TokensOf(v);
  }
}
