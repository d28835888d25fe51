/** The web client's playlist: shuffling the songs in place of the player, and keeping the
    position of the playing song and the table positions in step. */
module Playlist {
  import opened Options
  import Shuffle

  class Song {
    const songId: string
    /** The property is absent until a shuffle writes it. */
    var shuffledIndex: Option<nat>
    var tableIndex: int

    constructor (songId: string)
      ensures this.songId == songId
    {
      this.songId := songId;
      shuffledIndex := None;
      tableIndex := 0;
    }
  }

  /** A row of a query result: a song id with its place in the table. */
  datatype Record = Record(songId: string, tableIndex: int)

  class Player {
    var playingIndex: int
  }

  ghost predicate Apart(songs: seq<Song>) {
    forall i, j :: 0 <= i < j < |songs| ==> songs[i] != songs[j]
  }

  ghost predicate DistinctIds(songs: seq<Song>) {
    forall i, j :: 0 <= i < j < |songs| ==> songs[i].songId != songs[j].songId
  }

  function Ids(songs: seq<Song>): (ids: seq<string>)
    ensures |ids| == |songs| && forall i :: 0 <= i < |ids| ==> ids[i] == songs[i].songId
  {
    seq(|songs|, i requires 0 <= i < |songs| => songs[i].songId)
  }

  /** Array.indexOf */
  function IndexOf(ids: seq<string>, id: string): (k: int)
    ensures -1 <= k < |ids|
    ensures k >= 0 ==> ids[k] == id && forall j :: 0 <= j < k ==> ids[j] != id
    ensures k == -1 ==> id !in ids
  {
    if ids == [] then -1
    else if ids[0] == id then 0
    else
      var k := IndexOf(ids[1..], id);
      assert ids == [ids[0]] + ids[1..];
      if k == -1 then -1 else k + 1
  }

  /** Position k of `to` holds song order[k] of `from`. */
  ghost predicate Arranged(from: seq<Song>, to: seq<Song>, order: seq<nat>) {
    && |to| == |order|
    && forall k :: 0 <= k < |to| ==> order[k] < |from| && to[k] == from[order[k]]
  }

  function Placed(songs: seq<Song>, list: seq<Song>, r: nat): seq<Song>
    requires r <= |list| < |songs|
  {
    var i := |list|;
    if r < i then (list + [list[r]])[r := songs[i]] else list + [songs[i]]
  }

  lemma {:induction false} ArrangedStep(songs: seq<Song>, list: seq<Song>, rs: seq<nat>, r: nat)
    requires Shuffle.Choices(rs) && r <= |rs| + 1
    requires Arranged(songs, list, Shuffle.Order(rs)) && |list| < |songs|
    ensures forall x | x in list :: x in songs
    ensures Apart(songs) ==> Apart(list) && songs[|list|] !in list
    ensures Shuffle.Choices(rs + [r])
    ensures Arranged(songs, Placed(songs, list, r), Shuffle.Order(rs + [r]))
  {
    Shuffle.OrderIsPermutation(rs);
    assert (rs + [r])[..|rs|] == rs;
    assert Shuffle.Order(rs + [r]) == Shuffle.Insert(Shuffle.Order(rs), r);
    ArrangedInsert(songs, list, Shuffle.Order(rs), r);
    ArrangedApart(songs, list, Shuffle.Order(rs));
  }

  lemma {:induction false} ArrangedInsert(songs: seq<Song>, list: seq<Song>, p: seq<nat>, r: nat)
    requires r <= |p| && Arranged(songs, list, p) && |list| < |songs|
    ensures Arranged(songs, Placed(songs, list, r), Shuffle.Insert(p, r))
  {
  }

  lemma {:induction false} ArrangedApart(songs: seq<Song>, list: seq<Song>, p: seq<nat>)
    requires Shuffle.Permutation(p) && Arranged(songs, list, p) && |list| < |songs|
    ensures forall x | x in list :: x in songs
    ensures Apart(songs) ==> Apart(list) && songs[|list|] !in list
  {
    if Apart(songs) {
      forall j, k | 0 <= j < k < |list|
        ensures list[j] != list[k]
      {
        assert list[j] == songs[p[j]] && list[k] == songs[p[k]] && p[j] != p[k];
      }
      forall k | 0 <= k < |list|
        ensures list[k] != songs[|list|]
      {
        assert list[k] == songs[p[k]] && p[k] < |list|;
      }
    }
  }

  class Playlist {
    var songs: seq<Song>
    var shuffledPlaylist: seq<Song>
    var unshuffledPlaylist: seq<Song>
    var shuffled: bool
    const player: Player

    constructor (songs: seq<Song>, player: Player)
      ensures this.songs == songs && this.player == player && !shuffled
    {
      this.songs, this.player := songs, player;
      shuffledPlaylist, unshuffledPlaylist, shuffled := [], [], false;
    }

    function GetPlaylistIndex(songId: string): int
      reads this`songs
    {
      IndexOf(Ids(songs), songId)
    }

    /** change_playlist_songs. Reading the id of a song that is not there throws, after the
        songs have been replaced. */
    method ChangePlaylistSongs(newSongs: seq<Song>) returns (thrown: bool)
      modifies this`songs, player
      ensures songs == newSongs
      ensures thrown <==> !(0 <= old(player.playingIndex) < |old(songs)|)
      ensures thrown ==> player.playingIndex == old(player.playingIndex)
      ensures !thrown ==> player.playingIndex == IndexOf(Ids(newSongs), old(songs)[old(player.playingIndex)].songId)
    {
      var index := player.playingIndex;
      if !(0 <= index < |songs|) {
        songs := newSongs;
        return true;
      }
      var currentSong := songs[index];
      songs := newSongs;
      player.playingIndex := GetPlaylistIndex(currentSong.songId);
      return false;
    }

    /** shuffle, with the random choices of its steps given. The songs are rearranged by
        Shuffle.Order. With no song twice, every position but the first carries its own number,
        and so does the first unless no step ever chose it. */
    method ShuffleSongs(choices: seq<nat>) returns (thrown: bool)
      requires |songs| == |choices| + 1 && Shuffle.Choices(choices)
      modifies this, songs, player
      ensures Arranged(old(songs), songs, Shuffle.Order(choices))
      ensures Apart(old(songs)) ==>
        && (forall k :: 1 <= k < |songs| ==> songs[k].shuffledIndex == Some(k))
        && songs[0].shuffledIndex == (if 0 in choices then Some(0) else old(songs[0].shuffledIndex))
        && (0 !in choices ==> songs[0] == old(songs[0]))
      ensures unshuffledPlaylist == old(songs) && shuffledPlaylist == songs
      ensures thrown <==> !(0 <= old(player.playingIndex) < |old(songs)|)
      ensures shuffled == (old(shuffled) || !thrown)
      ensures !thrown ==> player.playingIndex == IndexOf(Ids(songs), old(songs)[old(player.playingIndex)].songId)
      ensures !thrown && DistinctIds(old(songs)) ==>
        0 <= player.playingIndex < |songs| && songs[player.playingIndex] == old(songs[player.playingIndex])
    {
      FillShuffled(choices);
      unshuffledPlaylist := songs;
      thrown := ChangePlaylistSongs(shuffledPlaylist);
      if !thrown {
        shuffled := true;
        PlayingFollowed(unshuffledPlaylist, songs, choices, old(player.playingIndex));
      }
    }

    /** The loop of the shuffle. */
    method FillShuffled(choices: seq<nat>)
      requires |songs| == |choices| + 1 && Shuffle.Choices(choices)
      modifies this`shuffledPlaylist, songs
      ensures Arranged(songs, shuffledPlaylist, Shuffle.Order(choices))
      ensures Apart(songs) ==> Indexed(choices, old(songs[0].shuffledIndex))
    {
      shuffledPlaylist := [songs[0]];
      assert choices[..0] == [];
      for i := 1 to |songs|
        invariant Arranged(songs, shuffledPlaylist, Shuffle.Order(choices[..i - 1]))
        invariant Apart(songs) ==> Indexed(choices[..i - 1], old(songs[0].shuffledIndex))
      {
        assert choices[..i] == choices[..i - 1] + [choices[i - 1]];
        ArrangedStep(songs, shuffledPlaylist, choices[..i - 1], choices[i - 1]);
        PlaceSong(i, choices[i - 1], choices[..i - 1], old(songs[0].shuffledIndex));
      }
      assert choices[..|choices|] == choices;
    }

    /** The back-pointers after the steps that made these choices. */
    ghost predicate Indexed(choices: seq<nat>, initial: Option<nat>)
      requires shuffledPlaylist != [] && songs != []
      reads this, shuffledPlaylist
    {
      && (forall k :: 1 <= k < |shuffledPlaylist| ==> shuffledPlaylist[k].shuffledIndex == Some(k))
      && shuffledPlaylist[0].shuffledIndex == (if 0 in choices then Some(0) else initial)
      && (0 !in choices ==> shuffledPlaylist[0] == songs[0])
    }

    /** One step of the shuffle: the song at the chosen place moves to the new end, song i
        takes its place, and both are told where they are. */
    method PlaceSong(i: nat, random: nat, ghost choices: seq<nat>, ghost initial: Option<nat>)
      requires 1 <= i < |songs| && |shuffledPlaylist| == i && random <= i
      requires forall x | x in shuffledPlaylist :: x in songs
      requires Apart(songs) ==>
        Apart(shuffledPlaylist) && songs[i] !in shuffledPlaylist && Indexed(choices, initial)
      modifies this`shuffledPlaylist, songs
      ensures shuffledPlaylist == Placed(songs, old(shuffledPlaylist), random)
      ensures Apart(songs) ==> Indexed(choices + [random], initial)
    {
      assert songs[i] in songs;
      if random < i {
        assert shuffledPlaylist[random] in shuffledPlaylist;
        shuffledPlaylist := shuffledPlaylist + [shuffledPlaylist[random]];
        shuffledPlaylist[i].shuffledIndex := Some(i);
        shuffledPlaylist := shuffledPlaylist[random := songs[i]];
      } else {
        // shuffledPlaylist[random] is the undefined entry just appended
        shuffledPlaylist := shuffledPlaylist + [songs[i]];
      }
      shuffledPlaylist[random].shuffledIndex := Some(random);
    }

    /** update_table_indexs: each song in turn takes the table index of the first remaining
        record with its id, and that record leaves the list; a song without one is reported. A
        song that is there twice ends with the last index it was given. */
    method UpdateTableIndexs(newIndexs: seq<Record>) returns (left: seq<Record>, errors: nat)
      modifies songs
      ensures left == Assign(Ids(songs), newIndexs).1
      ensures errors == Unassigned(Assign(Ids(songs), newIndexs).0)
      ensures forall k :: 0 <= k < |songs| ==>
        songs[k].tableIndex ==
          LastGiven(songs, Assign(Ids(songs), newIndexs).0, songs[k], |songs|, old(songs[k].tableIndex))
      ensures forall k :: 0 <= k < |songs| ==> songs[k].shuffledIndex == old(songs[k].shuffledIndex)
    {
      left, errors := UpdateEach(songs, newIndexs);
    }
  }

  /** The loop over the songs. */
  method UpdateEach(songs: seq<Song>, newIndexs: seq<Record>) returns (left: seq<Record>, errors: nat)
    modifies songs
    ensures left == Assign(Ids(songs), newIndexs).1
    ensures errors == Unassigned(Assign(Ids(songs), newIndexs).0)
    ensures forall k :: 0 <= k < |songs| ==>
      songs[k].tableIndex ==
        LastGiven(songs, Assign(Ids(songs), newIndexs).0, songs[k], |songs|, old(songs[k].tableIndex))
    ensures forall k :: 0 <= k < |songs| ==> songs[k].shuffledIndex == old(songs[k].shuffledIndex)
  {
    left, errors := newIndexs, 0;
    ghost var given: seq<Option<int>> := [];
    ghost var all := Assign(Ids(songs), newIndexs);
    AssigningStart(Ids(songs), newIndexs);
    ghost var before := TableIndexes(songs);
    NoneGiven(songs, all.0, before);
    hide Assigning, Assign, Ids, First, RemoveAt, Unassigned, LastGiven, GetOr, Shown;
    for s := 0 to |songs|
      invariant |given| == s && Assigning(Ids(songs), all, s, given, left, errors)
      invariant Shown(songs, all.0, s, before, TableIndexes(songs))
      invariant forall k :: 0 <= k < |songs| ==> songs[k].shuffledIndex == old(songs[k].shuffledIndex)
    {
      left, errors, given := UpdateNext(songs, s, songs[s], left, errors, all, given, before);
    }
    AssigningDone(Ids(songs), all, given, left, errors);
    ShownAll(songs, all.0, before, TableIndexes(songs));
  }

  function TableIndexes(songs: seq<Song>): (indexes: seq<int>)
    reads songs
    ensures |indexes| == |songs| && forall k :: 0 <= k < |songs| ==> indexes[k] == songs[k].tableIndex
  {
    seq(|songs|, k requires 0 <= k < |songs| reads songs => songs[k].tableIndex)
  }

  /** After n songs every place shows the last index its song was given. */
  ghost predicate Shown(songs: seq<Song>, given: seq<Option<int>>, n: nat, before: seq<int>, now: seq<int>) {
    && n <= |songs| == |given| == |before| == |now|
    && forall k :: 0 <= k < |songs| ==> now[k] == LastGiven(songs, given, songs[k], n, before[k])
  }

  lemma {:induction false} NoneGiven(songs: seq<Song>, given: seq<Option<int>>, before: seq<int>)
    requires |songs| == |given| == |before|
    ensures Shown(songs, given, 0, before, before)
  {
  }

  lemma {:induction false} ShownNext(songs: seq<Song>, given: seq<Option<int>>, n: nat, before: seq<int>,
                                     was: seq<int>, now: seq<int>)
    requires n < |songs| == |now| && Shown(songs, given, n, before, was)
    requires forall k :: 0 <= k < |songs| ==>
      now[k] == if songs[n] == songs[k] then GetOr(given[n], was[k]) else was[k]
    ensures Shown(songs, given, n + 1, before, now)
  {
    forall k | 0 <= k < |songs|
      ensures now[k] == LastGiven(songs, given, songs[k], n + 1, before[k])
    {
      OneMoreGiven(songs, given, k, n, before[k]);
    }
  }

  lemma {:induction false} ShownAll(songs: seq<Song>, given: seq<Option<int>>, before: seq<int>, now: seq<int>)
    requires Shown(songs, given, |songs|, before, now)
    ensures forall k :: 0 <= k < |songs| ==> now[k] == LastGiven(songs, given, songs[k], |songs|, before[k])
  {
  }

  /** One round of it. */
  method UpdateNext(songs: seq<Song>, ghost s: nat, song: Song, records: seq<Record>, errors: nat,
                    ghost all: (seq<Option<int>>, seq<Record>), ghost given: seq<Option<int>>, ghost before: seq<int>)
      returns (left: seq<Record>, errors': nat, ghost given': seq<Option<int>>)
    requires s < |songs| && songs[s] == song && |given| == s
    requires Assigning(Ids(songs), all, s, given, records, errors)
    requires Shown(songs, all.0, s, before, TableIndexes(songs))
    modifies song`tableIndex
    ensures |given'| == s + 1 && Assigning(Ids(songs), all, s + 1, given', left, errors')
    ensures Shown(songs, all.0, s + 1, before, TableIndexes(songs))
  {
    ghost var was := TableIndexes(songs);
    AssigningStep(Ids(songs), all, s, given, records, errors);
    hide Assigning, Assign, First, RemoveAt, Unassigned, LastGiven, TableIndexes, Ids;
    ghost var i := First(records, song.songId);
    given' := given + [if i < |records| then Some(records[i].tableIndex) else None];
    var found;
    left, found := UpdateSong(song, records);
    errors' := if found then errors else errors + 1;
    AssigningNext(Ids(songs), all, s, given', left, errors');
    ShownNext(songs, all.0, s, before, was, TableIndexes(songs));
  }

  /** What one song does: take the first record with its id out of the list. */
  method UpdateSong(song: Song, records: seq<Record>) returns (left: seq<Record>, found: bool)
    modifies song`tableIndex
    ensures var i := First(records, song.songId);
      && found == (i < |records|)
      && left == (if found then RemoveAt(records, i) else records)
      && song.tableIndex == if found then records[i].tableIndex else old(song.tableIndex)
  {
    var i := FindRecord(records, song.songId);
    left, found := records, i < |records|;
    if found {
      song.tableIndex := records[i].tableIndex;
      left := RemoveAt(records, i);
    }
  }

  /** The search loop of one song, up to the record it breaks at. */
  method FindRecord(records: seq<Record>, id: string) returns (i: nat)
    ensures i == First(records, id)
  {
    i := 0;
    while i < |records| && records[i].songId != id
      invariant 0 <= i <= |records|
      invariant forall j :: 0 <= j < i ==> records[j].songId != id
    {
      i := i + 1;
    }
    FirstIs(records, id, i);
  }

  /** After s songs: what they were given, joined to what the rest will take, is everything. */
  ghost predicate Assigning(ids: seq<string>, all: (seq<Option<int>>, seq<Record>), s: nat,
                            given: seq<Option<int>>, left: seq<Record>, errors: nat)
  {
    && s <= |ids|
    && all.0 == given + Assign(ids[s..], left).0 && all.1 == Assign(ids[s..], left).1
    && errors == Unassigned(given)
  }

  lemma {:induction false} AssigningStart(ids: seq<string>, records: seq<Record>)
    ensures Assigning(ids, Assign(ids, records), 0, [], records, 0)
  {
    assert ids[0..] == ids;
  }

  lemma {:induction false} AssigningStep(ids: seq<string>, all: (seq<Option<int>>, seq<Record>), s: nat,
                      given: seq<Option<int>>, left: seq<Record>, errors: nat)
    requires s < |ids| && Assigning(ids, all, s, given, left, errors)
    ensures var i := First(left, ids[s]);
      if i < |left| then Assigning(ids, all, s + 1, given + [Some(left[i].tableIndex)], RemoveAt(left, i), errors)
      else Assigning(ids, all, s + 1, given + [None], left, errors + 1)
  {
    var i := First(left, ids[s]);
    var x := if i < |left| then Some(left[i].tableIndex) else None;
    var rest := Assign(ids[s + 1..], if i < |left| then RemoveAt(left, i) else left);
    assert ids[s..][0] == ids[s] && ids[s..][1..] == ids[s + 1..];
    assert Assign(ids[s..], left) == ([x] + rest.0, rest.1);
    hide Assign, First, RemoveAt;
    assert given + ([x] + rest.0) == (given + [x]) + rest.0;
    UnassignedSnoc(given, x);
  }

  lemma {:induction false} AssigningNext(ids: seq<string>, all: (seq<Option<int>>, seq<Record>), s: nat,
                      given: seq<Option<int>>, left: seq<Record>, errors: nat)
    requires |given| == s + 1 && Assigning(ids, all, s + 1, given, left, errors)
    ensures s < |all.0| && all.0[s] == given[s]
  {
  }

  lemma {:induction false} AssigningDone(ids: seq<string>, all: (seq<Option<int>>, seq<Record>),
                      given: seq<Option<int>>, left: seq<Record>, errors: nat)
    requires Assigning(ids, all, |ids|, given, left, errors)
    ensures all.0 == given && all.1 == left && errors == Unassigned(all.0)
  {
    assert ids[|ids|..] == [];
  }

  lemma {:induction false} UnassignedSnoc(given: seq<Option<int>>, x: Option<int>)
    ensures Unassigned(given + [x]) == Unassigned(given) + if x.None? then 1 else 0
  {
    if given == [] {
      assert given + [x] == [x];
    } else {
      assert (given + [x])[1..] == given[1..] + [x];
      UnassignedSnoc(given[1..], x);
    }
  }

  // ----------------------------------------------------------- re-indexing

  /** Array.splice(k, 1) */
  function RemoveAt(records: seq<Record>, k: nat): (rest: seq<Record>)
    requires k < |records|
    ensures |rest| == |records| - 1
  {
    records[..k] + records[k + 1..]
  }

  /** The place of the first record with this id, or the length. */
  function First(records: seq<Record>, id: string): (k: nat)
    ensures k <= |records|
    ensures k < |records| ==> records[k].songId == id
    ensures forall j :: 0 <= j < k ==> records[j].songId != id
  {
    if records == [] || records[0].songId == id then 0 else 1 + First(records[1..], id)
  }

  lemma {:induction false} FirstIs(records: seq<Record>, id: string, i: nat)
    requires i <= |records| && forall j :: 0 <= j < i ==> records[j].songId != id
    requires i < |records| ==> records[i].songId == id
    ensures First(records, id) == i
  {
  }

  /** What each id takes, in turn, and the records left over. */
  function Assign(ids: seq<string>, records: seq<Record>): (r: (seq<Option<int>>, seq<Record>))
    ensures |r.0| == |ids|
  {
    if ids == [] then ([], records)
    else
      var k := First(records, ids[0]);
      if k < |records| then
        var rest := Assign(ids[1..], RemoveAt(records, k));
        ([Some(records[k].tableIndex)] + rest.0, rest.1)
      else
        var rest := Assign(ids[1..], records);
        ([None] + rest.0, rest.1)
  }

  function GetOr(given: Option<int>, before: int): int {
    match given
    case Some(t) => t
    case None => before
  }

  /** The last index among the first n that went to this song. */
  function LastGiven(songs: seq<Song>, given: seq<Option<int>>, song: Song, n: nat, before: int): int
    requires n <= |songs| && n <= |given|
  {
    if n == 0 then before
    else if songs[n - 1] == song && given[n - 1].Some? then given[n - 1].value
    else LastGiven(songs, given, song, n - 1, before)
  }

  /** What song n takes shows at every place that holds it, and nowhere else. */
  lemma {:induction false} OneMoreGiven(songs: seq<Song>, given: seq<Option<int>>, k: nat, n: nat, before: int)
    requires k < |songs| && n < |songs| && n < |given|
    ensures LastGiven(songs, given, songs[k], 0, before) == before
    ensures LastGiven(songs, given, songs[k], n + 1, before) ==
      if songs[n] == songs[k] then GetOr(given[n], LastGiven(songs, given, songs[k], n, before))
      else LastGiven(songs, given, songs[k], n, before)
  {
  }

  /** A song that is there once has what its own place was given. */
  lemma {:induction false} OnePlaceOneIndex(songs: seq<Song>, given: seq<Option<int>>, k: nat, n: nat, before: int)
    requires Apart(songs) && k < |songs| && n <= |songs| == |given|
    ensures LastGiven(songs, given, songs[k], n, before) == if k < n then GetOr(given[k], before) else before
  {
    if n > 0 {
      OnePlaceOneIndex(songs, given, k, n - 1, before);
    }
  }

  function Unassigned(given: seq<Option<int>>): nat {
    if given == [] then 0 else (if given[0].None? then 1 else 0) + Unassigned(given[1..])
  }

  function RecordIds(records: seq<Record>): (ids: seq<string>)
    ensures |ids| == |records|
  {
    seq(|records|, i requires 0 <= i < |records| => records[i].songId)
  }

  lemma {:induction false} RemoveRecord(records: seq<Record>, k: nat)
    requires k < |records|
    ensures multiset(RecordIds(RemoveAt(records, k))) == multiset(RecordIds(records)) - multiset{records[k].songId}
    ensures records[k].songId in RecordIds(records)
  {
    var ids := RecordIds(records);
    assert ids[k] == records[k].songId;
    assert ids == ids[..k] + [ids[k]] + ids[k + 1..];
    assert RecordIds(RemoveAt(records, k)) == ids[..k] + ids[k + 1..];
  }

  lemma {:induction false} AssignTail(ids: seq<string>, records: seq<Record>)
    requires ids != []
    ensures var k := First(records, ids[0]);
      var rest := if k < |records| then RemoveAt(records, k) else records;
      && Assign(ids, records).1 == Assign(ids[1..], rest).1
      && Unassigned(Assign(ids, records).0)
         == Unassigned(Assign(ids[1..], rest).0) + (if k < |records| then 0 else 1)
  {
    var k := First(records, ids[0]);
    var rest := if k < |records| then RemoveAt(records, k) else records;
    assert Assign(ids, records).0[1..] == Assign(ids[1..], rest).0;
  }

  /** Every song finds a record and no record is left over, exactly when the playlist and the
      records list the same ids equally often. */
  lemma {:induction false} AllAssignedExactlyWhenSameIds(ids: seq<string>, records: seq<Record>)
    ensures Unassigned(Assign(ids, records).0) == 0 && Assign(ids, records).1 == []
       <==> multiset(ids) == multiset(RecordIds(records))
    decreases |ids|
  {
    if ids == [] {
      if records != [] { assert RecordIds(records)[0] in multiset(RecordIds(records)); }
    } else {
      AssignTail(ids, records);
      var k := First(records, ids[0]);
      assert k == |records| ==> ids[0] !in RecordIds(records);
      hide Assign, Unassigned, First, RemoveAt, RecordIds;
      if k < |records| {
        RemoveRecord(records, k);
        AllAssignedExactlyWhenSameIds(ids[1..], RemoveAt(records, k));
        SameWithoutFirst(ids, RecordIds(records), ids[0]);
      } else {
        assert ids[0] in multiset(ids);
      }
    }
  }

  lemma {:induction false} SameWithoutFirst(a: seq<string>, b: seq<string>, x: string)
    requires a != [] && a[0] == x && x in b
    ensures multiset(a) == multiset(b) <==> multiset(a[1..]) == multiset(b) - multiset{x}
  {
    assert a == [x] + a[1..];
    assert x in multiset(b);
    assert multiset(b) == multiset(b) - multiset{x} + multiset{x};
  }

  /** With distinct ids on both sides, a song takes the index of the record with its id. */
  lemma {:induction false} AssignedRecord(ids: seq<string>, records: seq<Record>, i: nat, j: nat)
    requires i < |ids| && j < |records| && records[j].songId == ids[i]
    requires forall a, b :: 0 <= a < b < |ids| ==> ids[a] != ids[b]
    requires forall a, b :: 0 <= a < b < |records| ==> records[a].songId != records[b].songId
    ensures Assign(ids, records).0[i] == Some(records[j].tableIndex)
    decreases |ids|
  {
    var k := First(records, ids[0]);
    if i == 0 {
      FirstIs(records, ids[0], j);
    } else if k < |records| {
      var rest := RemoveAt(records, k);
      var j' := if j < k then j else j - 1;
      assert rest[j'] == records[j];
      AssignedRecord(ids[1..], rest, i - 1, j');
    } else {
      AssignedRecord(ids[1..], records, i - 1, j);
    }
  }

  // ----------------------------------------------------- the playing song

  /** After any rearrangement of songs with distinct ids, looking the playing song up by its
      id finds that very song. */
  lemma {:induction false} PlayingSongFollowed(from: seq<Song>, to: seq<Song>, order: seq<nat>, playing: nat)
    requires Shuffle.Permutation(order) && |order| == |from| && Arranged(from, to, order)
    requires DistinctIds(from) && playing < |from|
    ensures var k := IndexOf(Ids(to), from[playing].songId);
      0 <= k < |to| && to[k] == from[playing] && order[k] == playing
  {
    Shuffle.PermutationCovers(order, playing);
    var k :| 0 <= k < |order| && order[k] == playing;
    assert Ids(to)[k] == from[playing].songId;
    var m := IndexOf(Ids(to), from[playing].songId);
    assert to[m].songId == from[playing].songId && to[m] == from[order[m]];
  }

  lemma {:induction false} PlayingFollowed(from: seq<Song>, to: seq<Song>, choices: seq<nat>, playing: nat)
    requires Shuffle.Choices(choices) && |from| == |choices| + 1
    requires Arranged(from, to, Shuffle.Order(choices)) && playing < |from|
    ensures DistinctIds(from) ==>
      var k := IndexOf(Ids(to), from[playing].songId); 0 <= k < |to| && to[k] == from[playing]
  {
    Shuffle.OrderIsPermutation(choices);
    if DistinctIds(from) {
      PlayingSongFollowed(from, to, Shuffle.Order(choices), playing);
    }
  }
}
