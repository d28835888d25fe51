/** Escaping text for a JSON string: the in-place routine, what it computes, and how the
    result reads back. */
module JsonString {
  import opened Options

  predicate NeedsEscape(c: char) {
    c == '"' || c == '\\'
  }

  /** Each quote and backslash preceded by a backslash. */
  function Escape(s: string): (e: string)
  {
    if s == [] then []
    else (if NeedsEscape(s[0]) then ['\\', s[0]] else [s[0]]) + Escape(s[1..])
  }

  /** The characters a two-character escape may name, section 7 of RFC 8259. */
  function EscapeMeaning(c: char): Option<char> {
    match c
    case '"' => Some('"')
    case '\\' => Some('\\')
    case '/' => Some('/')
    case 'b' => Some('\U{0008}')
    case 'f' => Some('\U{000C}')
    case 'n' => Some('\n')
    case 'r' => Some('\r')
    case 't' => Some('\t')
    case _ => None
  }

  predicate Control(c: char) {
    c < ' '
  }

  predicate Clean(s: string) {
    forall i :: 0 <= i < |s| ==> !Control(s[i])
  }

  /** The content of a JSON string: unescaped characters and two-character escapes. */
  predicate BodyOk(b: string) {
    if b == [] then true
    else if b[0] == '\\' then |b| >= 2 && EscapeMeaning(b[1]).Some? && BodyOk(b[2..])
    else b[0] != '"' && !Control(b[0]) && BodyOk(b[1..])
  }

  /** Content whose quotes are all escaped: a scan for the closing quote runs past it. */
  predicate Scannable(b: string) {
    if b == [] then true
    else if b[0] == '\\' then |b| >= 2 && EscapeMeaning(b[1]).Some? && Scannable(b[2..])
    else b[0] != '"' && Scannable(b[1..])
  }

  lemma {:induction false} EscapeScannable(s: string)
    ensures Scannable(Escape(s))
  {
    if s != [] {
      EscapeScannable(s[1..]);
      var e := Escape(s);
      if NeedsEscape(s[0]) { assert e[2..] == Escape(s[1..]); } else { assert e[1..] == Escape(s[1..]); }
    }
  }

  function Unescape(b: string): string
    requires BodyOk(b)
  {
    if b == [] then []
    else if b[0] == '\\' then [EscapeMeaning(b[1]).value] + Unescape(b[2..])
    else [b[0]] + Unescape(b[1..])
  }

  function Special(s: string): nat {
    if s == [] then 0 else (if NeedsEscape(s[0]) then 1 else 0) + Special(s[1..])
  }

  lemma {:induction false} EscapeLength(s: string)
    ensures |Escape(s)| == |s| + Special(s)
  {
    if s != [] {
      EscapeLength(s[1..]);
    }
  }

  lemma {:induction false} EscapeConcat(s: string, t: string)
    ensures Escape(s + t) == Escape(s) + Escape(t)
  {
    if s == [] {
      assert s + t == t;
    } else {
      assert (s + t)[1..] == s[1..] + t;
      EscapeConcat(s[1..], t);
    }
  }

  /** Escaping goes character by character, and puts a backslash before a quote or a backslash. */
  lemma {:induction false} EscapeAppend(s: string, c: char, t: string)
    ensures Escape("") == ""
    ensures Escape(s + [c] + t) == Escape(s) + (if c == '"' || c == '\\' then ['\\', c] else [c]) + Escape(t)
  {
    EscapeConcat(s + [c], t);
    EscapeConcat(s, [c]);
    assert [c][1..] == [];
  }

  /** Escaped text is legal string content exactly when it has no character below 32, and then it
      reads back as the original. */
  lemma {:induction false} EscapeRoundTrip(s: string)
    ensures BodyOk(Escape(s)) <==> forall i :: 0 <= i < |s| ==> s[i] as int >= 32
    ensures BodyOk(Escape(s)) <==> Clean(s)
    ensures Clean(s) ==> Unescape(Escape(s)) == s
  {
    if s != [] {
      EscapeRoundTrip(s[1..]);
      var e, rest := Escape(s), Escape(s[1..]);
      assert Clean(s) <==> !Control(s[0]) && Clean(s[1..]) by {
        if Clean(s) {
          assert forall i :: 0 <= i < |s[1..]| ==> s[1..][i] == s[i + 1];
        } else {
          var i :| 0 <= i < |s| && Control(s[i]);
          if i > 0 { assert s[1..][i - 1] == s[i]; }
        }
      }
      if NeedsEscape(s[0]) {
        assert e[2..] == rest;
      } else {
        assert e[1..] == rest;
      }
      assert Clean(s) ==> Unescape(e) == [s[0]] + Unescape(rest);
    }
  }

  ghost function Partly(s: string, k: nat): string
    requires k <= |s|
  {
    Escape(s[..k]) + s[k..]
  }

  lemma {:induction false} EscapeStep(s: string, k: nat)
    requires k < |s|
    ensures var p, i := Partly(s, k), |Escape(s[..k])|;
      && i < |p| && p[i] == s[k]
      && (if NeedsEscape(s[k]) then p[..i] + ['\\', s[k]] + p[i + 1..] else p) == Partly(s, k + 1)
      && |Escape(s[..k + 1])| == i + (if NeedsEscape(s[k]) then 2 else 1)
  {
    var p, e := Partly(s, k), Escape(s[..k]);
    assert s[..k + 1] == s[..k] + [s[k]];
    EscapeConcat(s[..k], [s[k]]);
    assert s[k..] == [s[k]] + s[k + 1..];
    assert p[..|e|] == e && p[|e| + 1..] == s[k + 1..];
    assert Escape([s[k]]) == if NeedsEscape(s[k]) then ['\\', s[k]] else [s[k]];
  }

  /** json_escape_char: the string grows under the loop that scans it. NULL stays NULL. */
  method EscapeChar(text: Option<string>) returns (escaped: Option<string>)
    ensures escaped == match text case None => None case Some(s) => Some(Escape(s))
  {
    if text.None? {
      return None;
    }
    var original := text.value;
    var s := original;
    var i := 0;
    ghost var done := 0;
    assert original[..0] == [] && original[0..] == original;
    while i < |s|
      invariant 0 <= done <= |original|
      invariant i == |Escape(original[..done])|
      invariant s == Partly(original, done)
      decreases |original| - done
    {
      hide Escape;
      EscapeStep(original, done);
      if s[i] == '"' {
        s := s[..i] + "\\\"" + s[i + 1..];
        i := i + 1;
      } else if s[i] == '\\' {
        s := s[..i] + "\\\\" + s[i + 1..];
        i := i + 1;
      }
      i := i + 1;
      done := done + 1;
    }
    if done < |original| { EscapeStep(original, done); }
    assert original[..done] == original && original[done..] == [];
    assert s == Escape(original) + [];
    assert s == Escape(original);
    return Some(s);
  }
}
