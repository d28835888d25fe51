/** Searching and splitting text, as the C library's string functions do. */
module Strings {

  /** strchr and memchr: where c first occurs, or the end. */
  function Find(s: string, c: char): (k: nat)
    ensures k <= |s| && (k < |s| ==> s[k] == c) && forall j :: 0 <= j < k ==> s[j] != c
  {
    if s == "" || s[0] == c then 0 else 1 + Find(s[1..], c)
  }

  lemma {:induction false} FindAt(s: string, c: char, k: nat)
    requires k <= |s| && (k < |s| ==> s[k] == c) && forall j :: 0 <= j < k ==> s[j] != c
    ensures Find(s, c) == k
  {
    hide *;
  }

  lemma {:induction false} FoundBy(s: string, c: char, k: nat)
    requires k < |s| && s[k] == c
    ensures Find(s, c) <= k
  {
    hide *;
  }

  /** The pieces between the separators, empty ones included. */
  function Split(s: string, c: char): (pieces: seq<string>)
    ensures pieces != []
  {
    var k := Find(s, c);
    if k == |s| then [s] else [s[..k]] + Split(s[k + 1..], c)
  }

  function Join(pieces: seq<string>, c: char): string {
    if pieces == [] then ""
    else if |pieces| == 1 then pieces[0]
    else pieces[0] + [c] + Join(pieces[1..], c)
  }

  predicate Without(pieces: seq<string>, c: char) {
    forall i :: 0 <= i < |pieces| ==> c !in pieces[i]
  }

  lemma {:induction false} SplitFirst(first: string, c: char, rest: string)
    requires c !in first
    ensures Split(first + [c] + rest, c) == [first] + Split(rest, c)
    ensures Split(first, c) == [first]
  {
    FindAt(first, c, |first|);
    FindAt(first + [c] + rest, c, |first|);
    hide Find;
    assert (first + [c] + rest)[..|first|] == first;
    assert (first + [c] + rest)[|first| + 1..] == rest;
  }

  lemma {:induction false} JoinMore(first: string, pieces: seq<string>, c: char)
    requires pieces != []
    ensures Join([first] + pieces, c) == first + [c] + Join(pieces, c)
  {
    assert ([first] + pieces)[1..] == pieces;
  }

  lemma {:induction false} JoinOne(piece: string, c: char)
    ensures Join([piece], c) == piece
  {
  }

  /** Split takes apart exactly what Join puts together. */
  lemma {:induction false} SplitExactlyUndoesJoin(pieces: seq<string>, c: char)
    ensures Split(Join(pieces, c), c) == pieces <==> pieces != [] && Without(pieces, c)
  {
    if pieces != [] && Without(pieces, c) {
      SplitJoin(pieces, c);
    } else {
      JoinSplit(Join(pieces, c), c);
    }
  }

  lemma {:induction false} SplitJoin(pieces: seq<string>, c: char)
    requires pieces != [] && Without(pieces, c)
    ensures Split(Join(pieces, c), c) == pieces
  {
    if |pieces| == 1 {
      SplitFirst(pieces[0], c, "");
      assert pieces == [pieces[0]];
    } else {
      SplitFirst(pieces[0], c, Join(pieces[1..], c));
      SplitJoin(pieces[1..], c);
      assert pieces == [pieces[0]] + pieces[1..];
    }
  }

  lemma {:induction false} JoinSplit(s: string, c: char)
    ensures Join(Split(s, c), c) == s && Without(Split(s, c), c)
  {
    hide Find, Join;
    var k := Find(s, c);
    if k < |s| {
      JoinSplit(s[k + 1..], c);
      JoinMore(s[..k], Split(s[k + 1..], c), c);
      assert s == s[..k] + [c] + s[k + 1..];
    } else {
      JoinOne(s, c);
    }
  }
}
