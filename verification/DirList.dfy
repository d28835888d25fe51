/** Listing a music directory into a linked list that ends in an empty node, and walking
    that list while the progress of the synchronisation is published. */
module DirList {
  import opened Options
  import opened Strings

  /** A directory entry; a folder may fail to open. */
  datatype Entry =
    | File(name: string, mtime: int)
    | Folder(name: string, opens: bool, contents: seq<Entry>)
    | Special(name: string)

  datatype FileInfo = FileInfo(path: string, mtime: int)

  /** The node being filled: there, replaced by NULL, or dereferenced as NULL. */
  datatype Cursor = Alive | Lost | Crashed

  datatype Scan = Scan(files: seq<FileInfo>, cursor: Cursor)

  predicate Hidden(name: string) {
    name != "" && name[0] == '.'
  }

  // ------------------------------------------------------------ what is listed

  /** read_dir over the entries of one directory: the files filled in, in order, and what
      became of the node pointer. A folder that does not open turns it into NULL. */
  function Listing(path: string, entries: seq<Entry>, cursor: Cursor): Scan
    decreases entries, 0
  {
    if entries == [] || cursor == Crashed then Scan([], cursor)
    else
      var first := ListEntry(path, entries[0], cursor);
      var rest := Listing(path, entries[1..], first.cursor);
      Scan(first.files + rest.files, rest.cursor)
  }

  function ListEntry(path: string, e: Entry, cursor: Cursor): Scan
    decreases e, 1
  {
    match e
    case Special(_) => Scan([], cursor)
    case File(name, mtime) =>
      if cursor == Alive then Scan([FileInfo(path + "/" + name, mtime)], Alive) else Scan([], Crashed)
    case Folder(name, opens, contents) =>
      if Hidden(name) then Scan([], cursor)
      else if !opens then Scan([], Lost)
      else Listing(path + "/" + name, contents, cursor)
  }

  /** The regular files of a tree not below a hidden folder, depth first in reading order. */
  function Regular(path: string, entries: seq<Entry>): seq<FileInfo>
    decreases entries, 0
  {
    if entries == [] then [] else RegularEntry(path, entries[0]) + Regular(path, entries[1..])
  }

  function RegularEntry(path: string, e: Entry): seq<FileInfo>
    decreases e, 1
  {
    match e
    case Special(_) => []
    case File(name, mtime) => [FileInfo(path + "/" + name, mtime)]
    case Folder(name, opens, contents) =>
      if Hidden(name) || !opens then [] else Regular(path + "/" + name, contents)
  }

  /** Every folder that would be entered opens. */
  predicate AllOpen(entries: seq<Entry>)
    decreases entries, 0
  {
    entries == [] || (EntryOpen(entries[0]) && AllOpen(entries[1..]))
  }

  predicate EntryOpen(e: Entry)
    decreases e, 1
  {
    e.Folder? && !Hidden(e.name) ==> e.opens && AllOpen(e.contents)
  }

  /** The listing is complete and can be continued exactly when every folder entered opens;
      one that does not loses the end of the list for good. */
  lemma {:induction false} ListingAliveExactlyWhenOpen(path: string, entries: seq<Entry>, cursor: Cursor)
    ensures Listing(path, entries, cursor).cursor == Alive <==> cursor == Alive && AllOpen(entries)
    ensures cursor == Alive && AllOpen(entries) ==> Listing(path, entries, cursor).files == Regular(path, entries)
    decreases entries, 0
  {
    if entries != [] && cursor != Crashed {
      EntryAliveExactlyWhenOpen(path, entries[0], cursor);
      ListingAliveExactlyWhenOpen(path, entries[1..], ListEntry(path, entries[0], cursor).cursor);
    }
  }

  lemma {:induction false} EntryAliveExactlyWhenOpen(path: string, e: Entry, cursor: Cursor)
    ensures ListEntry(path, e, cursor).cursor == Alive <==> cursor == Alive && EntryOpen(e)
    ensures cursor == Alive && EntryOpen(e) ==> ListEntry(path, e, cursor).files == RegularEntry(path, e)
    decreases e, 1
  {
    if e.Folder? && !Hidden(e.name) && e.opens {
      ListingAliveExactlyWhenOpen(path + "/" + e.name, e.contents, cursor);
    }
  }

  lemma {:induction false} ListingSnoc(path: string, entries: seq<Entry>, e: Entry, cursor: Cursor)
    ensures var before := Listing(path, entries, cursor);
      Listing(path, entries + [e], cursor) ==
        if before.cursor == Crashed then before
        else Scan(before.files + ListEntry(path, e, before.cursor).files, ListEntry(path, e, before.cursor).cursor)
  {
    if entries == [] {
      assert [] + [e] == [e] && [e][1..] == [];
      var f := ListEntry(path, e, cursor).files;
      assert f + [] == f && [] + f == f;
    } else if cursor != Crashed {
      var first := ListEntry(path, entries[0], cursor);
      assert (entries + [e])[1..] == entries[1..] + [e];
      ListingSnoc(path, entries[1..], e, first.cursor);
      var rest := Listing(path, entries[1..], first.cursor);
      var last := ListEntry(path, e, rest.cursor).files;
      assert first.files + (rest.files + last) == (first.files + rest.files) + last;
    }
  }

  lemma {:induction false} ListingNext(path: string, entries: seq<Entry>, i: nat, cursor: Cursor)
    requires i < |entries|
    ensures var before := Listing(path, entries[..i], cursor);
      var one := ListEntry(path, entries[i], before.cursor);
      Listing(path, entries[..i + 1], cursor) ==
        if before.cursor == Crashed then before else Scan(before.files + one.files, one.cursor)
  {
    ListingSnoc(path, entries[..i], entries[i], cursor);
    assert entries[..i + 1] == entries[..i] + [entries[i]];
  }

  // ------------------------------------------------------------ when the scan crashes

  /** What matters of the entries, in reading order: regular files, and folders entered that
      do not open. */
  datatype Mark = FileMark | ClosedMark

  function Marks(entries: seq<Entry>): seq<Mark>
    decreases entries, 0
  {
    if entries == [] then [] else EntryMarks(entries[0]) + Marks(entries[1..])
  }

  function EntryMarks(e: Entry): seq<Mark>
    decreases e, 1
  {
    match e
    case Special(_) => []
    case File(_, _) => [FileMark]
    case Folder(name, opens, contents) =>
      if Hidden(name) then [] else if opens then Marks(contents) else [ClosedMark]
  }

  /** A regular file is reached behind a folder that does not open. */
  ghost predicate FileAfterClosed(marks: seq<Mark>) {
    exists i, j :: 0 <= i < j < |marks| && marks[i].ClosedMark? && marks[j].FileMark?
  }

  /** What the marks make of the node pointer. */
  function Follow(cursor: Cursor, marks: seq<Mark>): Cursor
    decreases |marks|
  {
    if marks == [] || cursor == Crashed then cursor
    else Follow(if marks[0].ClosedMark? then Lost else if cursor == Lost then Crashed else cursor, marks[1..])
  }

  lemma {:induction false} FollowOn(cursor: Cursor, x: seq<Mark>, y: seq<Mark>)
    ensures Follow(cursor, x + y) == Follow(Follow(cursor, x), y)
    decreases |x|
  {
    if x == [] {
      assert x + y == y;
    } else if cursor != Crashed {
      assert (x + y)[1..] == x[1..] + y;
      FollowOn(if x[0].ClosedMark? then Lost else if cursor == Lost then Crashed else cursor, x[1..], y);
    }
  }

  lemma {:induction false} FollowFromLost(marks: seq<Mark>)
    ensures Follow(Lost, marks) == Crashed <==> FileMark in marks
    decreases |marks|
  {
    if marks != [] {
      if marks[0].ClosedMark? {
        FollowFromLost(marks[1..]);
        assert marks == [marks[0]] + marks[1..];
      } else {
        assert Follow(Crashed, marks[1..]) == Crashed;
      }
    }
  }

  lemma {:induction false} FollowFromAlive(marks: seq<Mark>)
    ensures Follow(Alive, marks) == Crashed <==> FileAfterClosed(marks)
    decreases |marks|
  {
    if marks != [] {
      var rest := marks[1..];
      if marks[0].ClosedMark? {
        FollowFromLost(rest);
        if FileMark in rest {
          var j :| 0 <= j < |rest| && rest[j] == FileMark;
          assert marks[0].ClosedMark? && marks[j + 1].FileMark?;
        }
      } else {
        FollowFromAlive(rest);
        if FileAfterClosed(rest) {
          var i, j :| 0 <= i < j < |rest| && rest[i].ClosedMark? && rest[j].FileMark?;
          assert marks[i + 1].ClosedMark? && marks[j + 1].FileMark?;
        }
      }
      if FileAfterClosed(marks) {
        var i, j :| 0 <= i < j < |marks| && marks[i].ClosedMark? && marks[j].FileMark?;
        assert rest[j - 1] == FileMark;
        assert i > 0 ==> rest[i - 1].ClosedMark? && rest[j - 1].FileMark?;
      }
    }
  }

  lemma {:induction false} ListingFollows(path: string, entries: seq<Entry>, cursor: Cursor)
    ensures Listing(path, entries, cursor).cursor == Follow(cursor, Marks(entries))
    decreases entries, 0
  {
    if entries != [] {
      FollowOn(cursor, EntryMarks(entries[0]), Marks(entries[1..]));
      if cursor != Crashed {
        EntryFollows(path, entries[0], cursor);
        ListingFollows(path, entries[1..], ListEntry(path, entries[0], cursor).cursor);
      }
    }
  }

  lemma {:induction false} EntryFollows(path: string, e: Entry, cursor: Cursor)
    requires cursor != Crashed
    ensures ListEntry(path, e, cursor).cursor == Follow(cursor, EntryMarks(e))
    decreases e, 1
  {
    if e.Folder? && !Hidden(e.name) && e.opens {
      ListingFollows(path + "/" + e.name, e.contents, cursor);
    }
  }

  /** A scan that does not crash lists every regular file reached, whatever did not open. */
  lemma {:induction false} CompleteUnlessCrashed(path: string, entries: seq<Entry>, cursor: Cursor)
    requires Listing(path, entries, cursor).cursor != Crashed
    ensures Listing(path, entries, cursor).files == Regular(path, entries)
    decreases entries, 0
  {
    if entries != [] {
      EntryCompleteUnlessCrashed(path, entries[0], cursor);
      CompleteUnlessCrashed(path, entries[1..], ListEntry(path, entries[0], cursor).cursor);
    }
  }

  lemma {:induction false} EntryCompleteUnlessCrashed(path: string, e: Entry, cursor: Cursor)
    requires ListEntry(path, e, cursor).cursor != Crashed
    ensures ListEntry(path, e, cursor).files == RegularEntry(path, e)
    decreases e, 1
  {
    if e.Folder? && !Hidden(e.name) && e.opens {
      CompleteUnlessCrashed(path + "/" + e.name, e.contents, cursor);
    }
  }

  /** The scan writes through NULL exactly when a regular file is reached behind an entered
      folder that does not open; otherwise its list is complete. */
  lemma {:induction false} CrashesExactlyOnFileAfterClosed(path: string, entries: seq<Entry>)
    ensures var s := Listing(path, entries, Alive);
      && (s.cursor == Crashed <==> FileAfterClosed(Marks(entries)))
      && (s.cursor != Crashed ==> s.files == Regular(path, entries))
  {
    ListingFollows(path, entries, Alive);
    FollowFromAlive(Marks(entries));
    if Listing(path, entries, Alive).cursor != Crashed {
      CompleteUnlessCrashed(path, entries, Alive);
    }
  }

  /** A locked folder before a file crashes the scan; behind it, it does no harm. */
  lemma {:induction false} ClosedFolderFirstCrashes(path: string, mtime: int)
    ensures Listing(path, [Folder("a", false, []), File("b", mtime)], Alive).cursor == Crashed
    ensures Listing(path, [File("b", mtime), Folder("a", false, [])], Alive)
         == Scan([FileInfo(path + "/" + "b", mtime)], Lost)
  {
    var closed, file := Folder("a", false, []), File("b", mtime);
    assert "a"[0] == 'a' && !Hidden("a");
    ListingOne(path, file, Lost);
    ListingOne(path, closed, Alive);
    assert [closed, file][1..] == [file] && [file, closed][1..] == [closed];
    assert ListEntry(path, closed, Alive) == Scan([], Lost);
    assert ListEntry(path, file, Lost) == Scan([], Crashed);
  }

  lemma {:induction false} ListingOne(path: string, e: Entry, cursor: Cursor)
    requires cursor != Crashed
    ensures Listing(path, [e], cursor) == ListEntry(path, e, cursor)
  {
    hide ListEntry;
    var one := ListEntry(path, e, cursor);
    assert [e][1..] == [] && one.files + [] == one.files;
  }

  // ------------------------------------------------------------ which files, in which order

  /** The names on the way to the regular file at this place and its time, a place being one
      position for each directory. There is none behind a folder that does not open or whose name
      begins with a dot. */
  function FileAt(entries: seq<Entry>, place: seq<nat>): Option<(seq<string>, int)>
    decreases |place|
  {
    if place == [] || place[0] >= |entries| then None
    else
      match entries[place[0]]
      case Special(_) => None
      case File(name, mtime) => if |place| == 1 then Some(([name], mtime)) else None
      case Folder(name, opens, contents) =>
        if !opens || (name != "" && name[0] == '.') then None
        else
          match FileAt(contents, place[1..])
          case None => None
          case Some((names, mtime)) => Some(([name] + names, mtime))
  }

  /** a comes before b in reading order. */
  predicate Earlier(a: seq<nat>, b: seq<nat>) {
    b != [] && (a == [] || a[0] < b[0] || (a[0] == b[0] && Earlier(a[1..], b[1..])))
  }

  /** The places of all files are met in reading order, each once. */
  ghost predicate Enumerates(places: seq<seq<nat>>, entries: seq<Entry>) {
    && (forall i, j :: 0 <= i < j < |places| ==> Earlier(places[i], places[j]))
    && (forall place :: place in places <==> FileAt(entries, place).Some?)
  }

  /** The file is the one at this place, under the names on the way to it. */
  ghost predicate IsAt(file: FileInfo, path: string, entries: seq<Entry>, place: seq<nat>) {
    match FileAt(entries, place)
    case None => false
    case Some((names, mtime)) => names != [] && file == FileInfo(path + "/" + Join(names, '/'), mtime)
  }

  ghost predicate Lists(files: seq<FileInfo>, path: string, entries: seq<Entry>, places: seq<seq<nat>>) {
    && |files| == |places|
    && forall i :: 0 <= i < |files| ==> IsAt(files[i], path, entries, places[i])
  }

  function Shift(place: seq<nat>): seq<nat> {
    if place == [] then [] else [place[0] + 1] + place[1..]
  }

  function Shifted(places: seq<seq<nat>>): (shifted: seq<seq<nat>>)
    ensures |shifted| == |places| && forall i :: 0 <= i < |places| ==> shifted[i] == Shift(places[i])
  {
    seq(|places|, i requires 0 <= i < |places| => Shift(places[i]))
  }

  function Below(places: seq<seq<nat>>): (below: seq<seq<nat>>)
    ensures |below| == |places| && forall i :: 0 <= i < |places| ==> below[i] == [0] + places[i]
  {
    seq(|places|, i requires 0 <= i < |places| => [0] + places[i])
  }

  lemma {:induction false} AtShift(entries: seq<Entry>, place: seq<nat>)
    requires entries != [] && place != []
    ensures FileAt(entries, Shift(place)) == FileAt(entries[1..], place)
  {
    assert Shift(place)[1..] == place[1..];
  }

  lemma {:induction false} AtFirst(entries: seq<Entry>, place: seq<nat>)
    requires entries != [] && place != [] && place[0] == 0
    ensures FileAt(entries, place) == FileAt([entries[0]], place)
  {
  }

  lemma {:induction false} UnShift(place: seq<nat>) returns (before: seq<nat>)
    requires place != [] && place[0] > 0
    ensures before != [] && Shift(before) == place
  {
    before := [place[0] - 1] + place[1..];
  }

  lemma {:induction false} ShiftOrder(a: seq<nat>, b: seq<nat>)
    requires a != [] && b != []
    ensures Earlier(Shift(a), Shift(b)) <==> Earlier(a, b)
  {
    assert Shift(a)[1..] == a[1..] && Shift(b)[1..] == b[1..];
  }

  lemma {:induction false} NoPlace(entries: seq<Entry>, place: seq<nat>)
    requires FileAt(entries, place).Some?
    ensures place != [] && place[0] < |entries|
  {
  }

  /** The places of the first entry, then those of the others. */
  lemma {:induction false} PlacesJoined(entries: seq<Entry>, head: seq<seq<nat>>, rest: seq<seq<nat>>)
    requires entries != [] && Enumerates(head, [entries[0]]) && Enumerates(rest, entries[1..])
    ensures Enumerates(head + Shifted(rest), entries)
  {
    var places := head + Shifted(rest);
    forall i | 0 <= i < |head|
      ensures head[i] != [] && head[i][0] == 0
    {
      assert head[i] in head;
      NoPlace([entries[0]], head[i]);
    }
    forall i | 0 <= i < |rest|
      ensures rest[i] != []
    {
      assert rest[i] in rest;
      NoPlace(entries[1..], rest[i]);
    }
    forall place
      ensures place in places <==> FileAt(entries, place).Some?
    {
      JoinedHas(entries, head, rest, place);
    }
    hide FileAt;
    forall i, j | 0 <= i < j < |places|
      ensures Earlier(places[i], places[j])
    {
      if |head| <= i {
        ShiftOrder(rest[i - |head|], rest[j - |head|]);
      }
    }
  }

  lemma {:induction false} JoinedHas(entries: seq<Entry>, head: seq<seq<nat>>, rest: seq<seq<nat>>, place: seq<nat>)
    requires entries != [] && Enumerates(head, [entries[0]]) && Enumerates(rest, entries[1..])
    ensures place in head + Shifted(rest) <==> FileAt(entries, place).Some?
  {
    hide FileAt, Earlier;
    var shifted := Shifted(rest);
    if place in head {
      NoPlace([entries[0]], place);
      AtFirst(entries, place);
    } else if i :| 0 <= i < |shifted| && shifted[i] == place {
      assert rest[i] in rest;
      NoPlace(entries[1..], rest[i]);
      AtShift(entries, rest[i]);
    }
    if FileAt(entries, place).Some? {
      NoPlace(entries, place);
      if place[0] == 0 {
        AtFirst(entries, place);
      } else {
        var before := UnShift(place);
        AtShift(entries, before);
        assert before in rest;
        var i :| 0 <= i < |rest| && rest[i] == before;
        assert shifted[i] == place;
      }
    }
  }

  lemma {:induction false} ListsJoined(path: string, entries: seq<Entry>, head: seq<seq<nat>>, rest: seq<seq<nat>>,
                                       files: seq<FileInfo>, more: seq<FileInfo>)
    requires entries != [] && Lists(files, path, [entries[0]], head) && Lists(more, path, entries[1..], rest)
    ensures Lists(files + more, path, entries, head + Shifted(rest))
  {
    hide FileAt;
    forall i | 0 <= i < |files + more|
      ensures IsAt((files + more)[i], path, entries, (head + Shifted(rest))[i])
    {
      if i < |files| {
        assert IsAt(files[i], path, [entries[0]], head[i]);
        NoPlace([entries[0]], head[i]);
        AtFirst(entries, head[i]);
      } else {
        var j := i - |files|;
        assert IsAt(more[j], path, entries[1..], rest[j]);
        NoPlace(entries[1..], rest[j]);
        AtShift(entries, rest[j]);
      }
    }
  }

  /** One level further down. */
  lemma {:induction false} AtBelow(e: Entry, place: seq<nat>)
    requires e.Folder? && e.opens && !Hidden(e.name)
    ensures FileAt([e], [0] + place) ==
      match FileAt(e.contents, place)
      case None => None
      case Some((names, mtime)) => Some(([e.name] + names, mtime))
  {
    assert ([0] + place)[1..] == place;
  }

  lemma {:induction false} PlacesBelow(e: Entry, inner: seq<seq<nat>>)
    requires e.Folder? && e.opens && !Hidden(e.name) && Enumerates(inner, e.contents)
    ensures Enumerates(Below(inner), [e])
  {
    hide FileAt;
    var places := Below(inner);
    forall i, j | 0 <= i < j < |places|
      ensures Earlier(places[i], places[j])
    {
      assert places[i][1..] == inner[i] && places[j][1..] == inner[j];
    }
    forall place
      ensures place in places <==> FileAt([e], place).Some?
    {
      if i :| 0 <= i < |places| && places[i] == place {
        assert inner[i] in inner;
        AtBelow(e, inner[i]);
      }
      if FileAt([e], place).Some? {
        NoPlace([e], place);
        assert place == [0] + place[1..];
        AtBelow(e, place[1..]);
        var i :| 0 <= i < |inner| && inner[i] == place[1..];
        assert places[i] == place;
      }
    }
  }

  lemma {:induction false} PathBelow(path: string, name: string, names: seq<string>)
    requires names != []
    ensures path + "/" + Join([name] + names, '/') == path + "/" + name + "/" + Join(names, '/')
  {
    JoinMore(name, names, '/');
    hide Join;
  }

  lemma {:induction false} ListsBelow(path: string, e: Entry, inner: seq<seq<nat>>, files: seq<FileInfo>)
    requires e.Folder? && e.opens && !Hidden(e.name) && Lists(files, path + "/" + e.name, e.contents, inner)
    ensures Lists(files, path, [e], Below(inner))
  {
    hide FileAt, Join;
    forall i | 0 <= i < |files|
      ensures IsAt(files[i], path, [e], Below(inner)[i])
    {
      assert IsAt(files[i], path + "/" + e.name, e.contents, inner[i]);
      AtBelow(e, inner[i]);
      PathBelow(path, e.name, FileAt(e.contents, inner[i]).value.0);
    }
  }

  lemma {:induction false} EntryEnumerated(path: string, e: Entry) returns (places: seq<seq<nat>>)
    ensures Enumerates(places, [e]) && Lists(RegularEntry(path, e), path, [e], places)
    decreases e, 1
  {
    if e.Folder? && e.opens && !Hidden(e.name) {
      var inner := RegularEnumerated(path + "/" + e.name, e.contents);
      PlacesBelow(e, inner);
      ListsBelow(path, e, inner, RegularEntry(path, e));
      places := Below(inner);
    } else if e.File? {
      FileEnumerated(path, e);
      places := [[0]];
    } else {
      places := [];
    }
  }

  lemma {:induction false} FileEnumerated(path: string, e: Entry)
    requires e.File?
    ensures Enumerates([[0]], [e]) && Lists(RegularEntry(path, e), path, [e], [[0]])
  {
    JoinOne(e.name, '/');
    forall place | FileAt([e], place).Some?
      ensures place == [0]
    {
    }
  }

  lemma {:induction false} RegularEnumerated(path: string, entries: seq<Entry>) returns (places: seq<seq<nat>>)
    ensures Enumerates(places, entries) && Lists(Regular(path, entries), path, entries, places)
    decreases entries, 0
  {
    if entries == [] {
      places := [];
    } else {
      var head := EntryEnumerated(path, entries[0]);
      var rest := RegularEnumerated(path, entries[1..]);
      PlacesJoined(entries, head, rest);
      ListsJoined(path, entries, head, rest, RegularEntry(path, entries[0]), Regular(path, entries[1..]));
      places := head + Shifted(rest);
    }
  }

  /** A scan that does not crash lists exactly the regular files reached through folders that open
      and whose names do not begin with a dot, each once and in reading order, under the names on
      the way to it. */
  lemma {:induction false} ListsExactlyReached(path: string, entries: seq<Entry>) returns (places: seq<seq<nat>>)
    ensures Enumerates(places, entries)
    ensures var s := Listing(path, entries, Alive);
      s.cursor != Crashed ==> Lists(s.files, path, entries, places)
  {
    CrashesExactlyOnFileAfterClosed(path, entries);
    hide *;
    places := RegularEnumerated(path, entries);
  }

  /** So a file is listed if and only if it is at some place. */
  lemma {:induction false} ListedIffReached(path: string, entries: seq<Entry>, file: FileInfo)
    requires Listing(path, entries, Alive).cursor != Crashed
    ensures file in Listing(path, entries, Alive).files <==> exists place :: IsAt(file, path, entries, place)
  {
    hide Listing, FileAt, Earlier;
    var places := ListsExactlyReached(path, entries);
    var files := Listing(path, entries, Alive).files;
    if i :| 0 <= i < |files| && files[i] == file {
      assert IsAt(file, path, entries, places[i]);
    }
    if place :| IsAt(file, path, entries, place) {
      assert place in places;
      var i :| 0 <= i < |places| && places[i] == place;
      assert IsAt(files[i], path, entries, place);
    }
  }

  // ------------------------------------------------------------ the heap list

  /** path is None in the empty node that ends the list. */
  class ListNode {
    var path: Option<string>
    var mtime: int
    var next: ListNode?

    constructor ()
      ensures path == None && next == null
    {
      path, mtime, next := None, 0, null;
    }
  }

  /** chain is an acyclic list from its first node to an empty one, holding the files. */
  ghost predicate HoldsFiles(chain: seq<ListNode>, files: seq<FileInfo>)
    reads chain
  {
    && |chain| == |files| + 1
    && (forall i, j :: 0 <= i < j < |chain| ==> chain[i] != chain[j])
    && (forall k :: 0 <= k < |files| ==> NodeHolds(chain[k], files[k], chain[k + 1]))
    && chain[|files|].path == None && chain[|files|].next == null
  }

  ghost predicate NodeHolds(node: ListNode, file: FileInfo, next: ListNode)
    reads node
  {
    node.path == Some(file.path) && node.mtime == file.mtime && node.next == next
  }

  function NextOf(nodes: seq<ListNode>, k: nat, end: ListNode): ListNode {
    if k + 1 < |nodes| then nodes[k + 1] else end
  }

  /** The nodes hold the files and lead on to `end`. */
  ghost predicate LeadsTo(nodes: seq<ListNode>, files: seq<FileInfo>, end: ListNode)
    reads nodes
  {
    && |nodes| == |files|
    && (forall i, j :: 0 <= i < j < |nodes| ==> nodes[i] != nodes[j])
    && forall k :: 0 <= k < |files| ==> NodeHolds(nodes[k], files[k], NextOf(nodes, k, end))
  }

  /** A list put behind nodes that lead to its first node. */
  lemma {:induction false} Extended(nodes: seq<ListNode>, files: seq<FileInfo>,
                                    more: seq<ListNode>, files': seq<FileInfo>)
    requires HoldsFiles(more, files') && LeadsTo(nodes, files, more[0])
    requires forall i, j :: 0 <= i < |nodes| && 0 <= j < |more| ==> nodes[i] != more[j]
    ensures HoldsFiles(nodes + more, files + files')
  {
    var all := nodes + more;
    forall k | 0 <= k < |files + files'|
      ensures NodeHolds(all[k], (files + files')[k], all[k + 1])
    {
      if k >= |files| {
        assert NodeHolds(more[k - |files|], files'[k - |files|], more[k - |files| + 1]);
      } else {
        assert NodeHolds(nodes[k], files[k], NextOf(nodes, k, more[0]));
      }
    }
  }

  lemma {:induction false} Front(chain: seq<ListNode>, files: seq<FileInfo>)
    requires HoldsFiles(chain, files)
    ensures LeadsTo(chain[..|files|], files, chain[|files|])
    ensures chain[|files|] !in chain[..|files|]
  {
    forall k | 0 <= k < |files|
      ensures NodeHolds(chain[..|files|][k], files[k], NextOf(chain[..|files|], k, chain[|files|]))
    {
      assert NodeHolds(chain[k], files[k], chain[k + 1]);
    }
  }

  /** Fill the empty node and link a new empty one behind it. */
  method Fill(node: ListNode, path: string, mtime: int) returns (end: ListNode)
    requires node.path == None && node.next == null
    modifies node
    ensures fresh(end) && HoldsFiles([node, end], [FileInfo(path, mtime)])
  {
    end := new ListNode();
    node.path := Some(path);
    node.mtime := mtime;
    node.next := end;
  }

  /** The heap after a scan: a list of its files from the given node, or nothing for NULL. */
  ghost predicate Built(node: ListNode?, chain: seq<ListNode>, s: Scan, last: ListNode?)
    reads chain
  {
    if node == null then chain == [] && s.files == [] && last == null
    else
      && HoldsFiles(chain, s.files) && chain[0] == node
      && (last != null ==> last == chain[|chain| - 1])
  }

  /** read_dir. `chain` is the list built from the given node on; a crash is the use of the
      NULL that a folder which did not open has left behind. */
  method ReadDir(node: ListNode?, dirPath: string, opens: bool, entries: seq<Entry>, count: nat)
      returns (last: ListNode?, newCount: nat, crashed: bool, ghost chain: seq<ListNode>)
    requires node != null ==> node.path == None && node.next == null
    modifies if node == null then {} else {node}
    ensures var cursor := if node == null then Lost else Alive;
      var s := if opens then Listing(dirPath, entries, cursor) else Scan([], Lost);
      && crashed == (s.cursor == Crashed) && ((last != null) == (s.cursor == Alive))
      && newCount == count + |s.files| + (if crashed then 1 else 0)
      && Built(node, chain, s, last)
    ensures forall k :: 0 <= k < |chain| ==> chain[k] == node || fresh(chain[k])
    decreases entries, 3
  {
    last, newCount, crashed, chain := node, count, false, if node == null then [] else [node];
    if !opens {
      last := null;
      return;
    }
    ghost var cursor := if node == null then Lost else Alive;
    ghost var s := Scan([], cursor);
    assert s == Listing(dirPath, entries[..0], cursor);
    assert Built(node, chain, s, last);
    hide Listing, ListEntry, HoldsFiles;
    for i := 0 to |entries|
      invariant !crashed && s == Listing(dirPath, entries[..i], cursor)
      invariant s.cursor == if last == null then Lost else Alive
      invariant newCount == count + |s.files|
      invariant Built(node, chain, s, last)
      invariant forall k :: 0 <= k < |chain| ==> chain[k] == node || fresh(chain[k])
    {
      var e := entries[i];
      ListingNext(dirPath, entries, i, cursor);
      ghost var one := ListEntry(dirPath, e, s.cursor);
      last, newCount, crashed, chain := ReadNext(node, last, dirPath, e, newCount, chain, s);
      s := Scan(s.files + one.files, one.cursor);
      if crashed {
        ListingCrashed(dirPath, entries, i + 1, cursor);
        return;
      }
    }
    assert entries[..|entries|] == entries;
  }

  /** One turn of read_dir's loop. */
  method ReadEntry(node: ListNode?, dirPath: string, e: Entry, count: nat)
      returns (last: ListNode?, newCount: nat, crashed: bool, ghost chain: seq<ListNode>)
    requires node != null ==> node.path == None && node.next == null
    modifies if node == null then {} else {node}
    ensures var s := ListEntry(dirPath, e, if node == null then Lost else Alive);
      && crashed == (s.cursor == Crashed) && ((last != null) == (s.cursor == Alive))
      && newCount == count + |s.files| + (if crashed then 1 else 0)
      && Built(node, chain, s, last)
    ensures forall k :: 0 <= k < |chain| ==> chain[k] == node || fresh(chain[k])
    decreases e, 1
  {
    last, newCount, crashed, chain := node, count, false, if node == null then [] else [node];
    match e
    case Special(_) =>
    case Folder(name, opens, contents) =>
      if !Hidden(name) {
        last, newCount, crashed, chain := ReadDir(node, dirPath + "/" + name, opens, contents, count);
      }
    case File(name, mtime) =>
      newCount := newCount + 1;
      if node == null {
        crashed := true;
      } else {
        last := Fill(node, dirPath + "/" + name, mtime);
        chain := [node, last];
      }
  }

  /** One more entry behind the list built so far. */
  method ReadNext(node: ListNode?, end: ListNode?, dirPath: string, e: Entry, count: nat,
                  ghost done: seq<ListNode>, ghost s: Scan)
      returns (last: ListNode?, newCount: nat, crashed: bool, ghost chain: seq<ListNode>)
    requires Built(node, done, s, end)
    modifies if end == null then {} else {end}
    ensures var one := ListEntry(dirPath, e, if end == null then Lost else Alive);
      && crashed == (one.cursor == Crashed) && ((last != null) == (one.cursor == Alive))
      && newCount == count + |one.files| + (if crashed then 1 else 0)
      && Built(node, chain, Scan(s.files + one.files, one.cursor), last)
    ensures forall k :: 0 <= k < |chain| ==> chain[k] in done || fresh(chain[k])
    decreases e, 2
  {
    ghost var front := if end == null then [] else done[..|s.files|];
    if end != null {
      Front(done, s.files);
    }
    ghost var more;
    last, newCount, crashed, more := ReadEntry(end, dirPath, e, count);
    ghost var one := ListEntry(dirPath, e, if end == null then Lost else Alive);
    hide ListEntry;
    if end != null {
      Extended(front, s.files, more, one.files);
      chain := front + more;
      assert node != null ==> chain[0] == node;
    } else {
      assert s.files + [] == s.files;
      chain := done;
    }
  }

  /** Nothing is listed after a crash. */
  lemma {:induction false} ListingCrashed(path: string, entries: seq<Entry>, n: nat, cursor: Cursor)
    requires n <= |entries| && Listing(path, entries[..n], cursor).cursor == Crashed
    ensures Listing(path, entries, cursor) == Listing(path, entries[..n], cursor)
    decreases |entries| - n
  {
    if n == |entries| {
      assert entries[..n] == entries;
    } else {
      assert entries[..n + 1] == entries[..n] + [entries[n]];
      ListingSnoc(path, entries[..n], entries[n], cursor);
      ListingCrashed(path, entries, n + 1, cursor);
    }
  }

  // ------------------------------------------------------------ synchronising

  /** Percent published while file k of n is handled; not a number for a single file. */
  function Progress(k: nat, n: nat): Option<real> {
    if n == 1 then None else Some((k * 100) as real / (n - 1) as real)
  }

  /** sync_dir's walk. lost(k) says that file k was read but the database connection is gone,
      which ends the thread; `published` is every value sync_progress took. */
  method SyncDir(head: ListNode, numFiles: nat, lost: nat -> bool,
                 ghost chain: seq<ListNode>, ghost files: seq<FileInfo>)
      returns (published: seq<Option<real>>, ended: bool)
    requires HoldsFiles(chain, files) && chain[0] == head && numFiles == |files|
    ensures |published| <= numFiles && forall k :: 0 <= k < |published| ==> published[k] == Progress(k, numFiles)
    ensures ended ==> |published| == numFiles && forall k: nat :: k < numFiles ==> !lost(k)
    ensures !ended ==> |published| < numFiles && lost(|published|) && forall k: nat :: k < |published| ==> !lost(k)
  {
    published, ended := [], false;
    var fileList, filesSynced := head, 0;
    while fileList.path != None
      invariant filesSynced == |published| <= numFiles && fileList == chain[filesSynced]
      invariant forall k :: 0 <= k < |published| ==> published[k] == Progress(k, numFiles)
      invariant forall k: nat :: k < |published| ==> !lost(k)
      decreases numFiles - filesSynced
    {
      assert filesSynced < numFiles && NodeHolds(chain[filesSynced], files[filesSynced], chain[filesSynced + 1]);
      if lost(filesSynced) {
        return;
      }
      published := published + [Progress(filesSynced, numFiles)];
      filesSynced := filesSynced + 1;
      fileList := fileList.next;
    }
    assert filesSynced < numFiles ==> NodeHolds(chain[filesSynced], files[filesSynced], chain[filesSynced + 1]);
    ended := true;
  }

  /** From 0 to 100 in equal steps. */
  lemma {:induction false} ProgressStep(j: nat, k: nat, n: nat)
    requires j <= k < n && n >= 2
    ensures Progress(j, n).Some? && Progress(k, n).Some?
    ensures 0.0 <= Progress(j, n).value <= Progress(k, n).value <= 100.0
    ensures k == n - 1 ==> Progress(k, n).value == 100.0
    ensures Progress(k, n).value * (n - 1) as real == (100 * k) as real
    ensures k == j + 1 ==> (Progress(k, n).value - Progress(j, n).value) * (n - 1) as real == 100.0
  {
    var d := (n - 1) as real;
    ProgressTimes(j, n);
    ProgressTimes(k, n);
    assert (k * 100) as real <= 100.0 * d;
    assert (j * 100) as real <= (k * 100) as real;
    DivideMonotone(0.0, (j * 100) as real, d);
    DivideMonotone((j * 100) as real, (k * 100) as real, d);
    DivideMonotone((k * 100) as real, 100.0 * d, d);
    DivideBack(100.0, d);
  }

  lemma {:induction false} ProgressTimes(k: nat, n: nat)
    requires n >= 2
    ensures Progress(k, n).Some? && Progress(k, n).value * (n - 1) as real == (100 * k) as real
  {
    var d := (n - 1) as real;
    assert (k * 100) as real / d * d == (k * 100) as real;
  }

  lemma {:induction false} DivideMonotone(x: real, y: real, d: real)
    requires x <= y && d > 0.0
    ensures x / d <= y / d
  {
    var a, b := x / d, y / d;
    assert a * d == x && b * d == y;
    assert (b - a) * d >= 0.0;
  }

  lemma {:induction false} DivideBack(c: real, d: real)
    requires d > 0.0
    ensures c * d / d == c
  {
    var q := c * d / d;
    assert q * d == c * d;
    assert (q - c) * d == 0.0;
  }

  /** The percentages of the first files of n: k hundred over n - 1 for file k, never falling,
      within 0 and 100. */
  ghost predicate Even(published: seq<Option<real>>, n: nat)
    requires n >= 2
  {
    && (forall k :: 0 <= k < |published| ==>
          && published[k].Some? && 0.0 <= published[k].value <= 100.0
          && published[k].value * (n - 1) as real == (100 * k) as real)
    && (forall j, k :: 0 <= j <= k < |published| ==> published[j].value <= published[k].value)
  }

  lemma {:induction false} EvenProgress(published: seq<Option<real>>, n: nat)
    requires n >= 2 && |published| <= n
    requires forall k :: 0 <= k < |published| ==> published[k] == Progress(k, n)
    ensures Even(published, n)
    ensures |published| == n ==> published[n - 1] == Some(100.0)
  {
    hide Progress;
    forall j, k | 0 <= j <= k < |published|
      ensures published[k].Some? && published[j].Some? && published[j].value <= published[k].value
      ensures 0.0 <= published[k].value <= 100.0 && published[k].value * (n - 1) as real == (100 * k) as real
      ensures k == n - 1 ==> published[k].value == 100.0
    {
      ProgressStep(j, k, n);
    }
  }

  /** Scan, then synchronise: unless the scan crashed, the published progress never falls,
      stays within 0 and 100, and reaches 100 exactly when there are two files or more and
      the connection lasts. */
  method ScanAndSync(dirPath: string, opens: bool, entries: seq<Entry>, lost: nat -> bool)
      returns (crashed: bool, published: seq<Option<real>>, ended: bool)
    ensures var s := if opens then Listing(dirPath, entries, Alive) else Scan([], Lost);
      && (crashed <==> opens && FileAfterClosed(Marks(entries)))
      && (!crashed ==> s.files == if opens then Regular(dirPath, entries) else [])
      && (!crashed && opens ==>
            exists places :: Enumerates(places, entries) && Lists(s.files, dirPath, entries, places))
      && (!crashed ==> var n := |s.files|;
            && |published| <= n
            && (ended <==> forall k: nat :: k < n ==> !lost(k))
            && (n >= 2 ==>
                  && Even(published, n)
                  && (ended ==> |published| == n && published[n - 1] == Some(100.0)))
            && (n == 1 && ended ==> published == [None]))
  {
    var head := new ListNode();
    var last, numFiles;
    ghost var chain;
    last, numFiles, crashed, chain := ReadDir(head, dirPath, opens, entries, 0);
    CrashesExactlyOnFileAfterClosed(dirPath, entries);
    ghost var places := ListsExactlyReached(dirPath, entries);
    hide FileAfterClosed, Marks, Listing, Regular, Enumerates, Lists;
    published, ended := [], false;
    if !crashed {
      ghost var s := if opens then Listing(dirPath, entries, Alive) else Scan([], Lost);
      published, ended := SyncDir(head, numFiles, lost, chain, s.files);
      if numFiles >= 2 {
        hide Progress, Even;
        EvenProgress(published, numFiles);
      }
    }
  }
}
