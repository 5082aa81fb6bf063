/** The read-only queries of the view model over its playlists (all tracks,
    search, urls of selected tracks, the "first playlist containing this id"
    lookup) and the import loop's effect on one playlist, stated as a fold
    over the picked files. */
module Library {
  import opened Common
  import opened TrackModel
  import opened PlaylistModel
  import opened Sequencing

  /** Every track of every playlist, playlist by playlist (`allTracks()`). */
  function AllTracks(playlists: seq<Playlist>): (r: seq<Track>)
    ensures forall i, t :: 0 <= i < |playlists| && t in playlists[i].tracks ==> t in r
  {
    if playlists == [] then [] else playlists[0].tracks + AllTracks(playlists[1..])
  }

  lemma {:induction false} AllTracksContains(playlists: seq<Playlist>, t: Track)
    ensures t in AllTracks(playlists) <==>
            exists i :: 0 <= i < |playlists| && t in playlists[i].tracks
  {
    if playlists != [] {
      AllTracksContains(playlists[1..], t);
      if exists i :: 0 <= i < |playlists| && t in playlists[i].tracks {
        var i :| 0 <= i < |playlists| && t in playlists[i].tracks;
        if i > 0 {
          assert t in playlists[1..][i - 1].tracks;
        }
      }
      if exists i :: 0 <= i < |playlists[1..]| && t in playlists[1..][i].tracks {
        var i :| 0 <= i < |playlists[1..]| && t in playlists[1..][i].tracks;
        assert t in playlists[i + 1].tracks;
      }
    }
  }

  /** The tracks of earlier playlists come first. */
  lemma {:induction false} AllTracksAppend(ps: seq<Playlist>, qs: seq<Playlist>)
    ensures AllTracks(ps + qs) == AllTracks(ps) + AllTracks(qs)
  {
    if ps == [] {
      assert ps + qs == qs;
    } else {
      assert (ps + qs)[1..] == ps[1..] + qs;
      AllTracksAppend(ps[1..], qs);
    }
  }

  /** A title matches a query when the case-folded query occurs in the
      case-folded title (`localizedCaseInsensitiveContains`, with the
      locale's folding given as `fold`). */
  predicate Matches(title: string, query: string, fold: char -> char)
  {
    IsInfix(MapSeq(query, fold), MapSeq(title, fold))
  }

  /** A title matches exactly when the folded query occurs at some position
      of the folded title. */
  lemma MatchesIff(title: string, query: string, fold: char -> char)
    ensures Matches(title, query, fold) <==>
            exists k :: OccursAt(MapSeq(query, fold), MapSeq(title, fold), k)
  {
    var q, h := MapSeq(query, fold), MapSeq(title, fold);
    IsInfixIff(q, h);
    assert IsInfix(q, h) <==> exists k :: OccursAt(MapSeq(query, fold), MapSeq(title, fold), k);
  }

  function MatchesQuery(query: string, fold: char -> char): Track -> bool
  {
    (t: Track) => Matches(t.title, query, fold)
  }

  /** `searchTracks(query:)`: an empty query finds nothing; otherwise the
      matching tracks of all playlists, in playlist-then-track order. */
  function SearchTracks(playlists: seq<Playlist>, query: string, fold: char -> char): (r: seq<Track>)
    ensures query == [] ==> r == []
    ensures query != [] ==>
            forall t :: t in r <==> t in AllTracks(playlists) && Matches(t.title, query, fold)
    ensures IsSubsequence(r, AllTracks(playlists))
  {
    if query == [] then []
    else
      FilterIsSubsequence(AllTracks(playlists), MatchesQuery(query, fold));
      Filter(AllTracks(playlists), MatchesQuery(query, fold))
  }

  /** A non-empty search finds exactly the tracks of some playlist whose folded
      title has an occurrence of the folded query. */
  lemma SearchFindsOccurrences(playlists: seq<Playlist>, query: string, fold: char -> char, t: Track)
    requires query != []
    ensures t in SearchTracks(playlists, query, fold) <==>
            (exists i :: 0 <= i < |playlists| && t in playlists[i].tracks) &&
            (exists k :: OccursAt(MapSeq(query, fold), MapSeq(t.title, fold), k))
  {
    AllTracksContains(playlists, t);
    MatchesIff(t.title, query, fold);
  }

  /** Simple case folding: ASCII upper-case letters to lower case. */
  function AsciiLower(c: char): char
  {
    if 'A' <= c <= 'Z' then (c as int + 32) as char else c
  }

  /** A search for "song" finds a track titled "Song One". */
  lemma SearchIsCaseInsensitive(p: Playlist, t: Track)
    requires t.title == "Song One" && p.tracks == [t]
    ensures SearchTracks([p], "song", AsciiLower) == [t]
  {
    var q := MapSeq("song", AsciiLower);
    var h := MapSeq(t.title, AsciiLower);
    assert q == "song";
    assert h[..4] == "song";
    assert IsPrefix(q, h);
    assert AllTracks([p]) == [t] by {
      assert AllTracks([p][1..]) == [];
    }
    assert Filter([t], MatchesQuery("song", AsciiLower)) == [t] by {
      assert [t][1..] == [];
    }
  }

  function Listed(ids: set<Uuid>): Track -> bool
  {
    (t: Track) => t.id in ids
  }

  function UrlOf(t: Track): Url
  {
    t.url
  }

  /** `getURLsForTracks`: the files of the selected tracks. */
  function TrackUrls(tracks: seq<Track>, ids: set<Uuid>): (r: seq<Url>)
    ensures |r| <= |tracks|
    ensures forall u :: u in r <==> exists t :: t in tracks && t.id in ids && t.url == u
  {
    var chosen := Filter(tracks, Listed(ids));
    var r := MapSeq(chosen, UrlOf);
    assert forall u :: u in r ==> exists t :: t in chosen && t.url == u by {
      forall u | u in r ensures exists t :: t in chosen && t.url == u {
        var k :| 0 <= k < |r| && r[k] == u;
        assert chosen[k] in chosen;
      }
    }
    assert forall t :: t in chosen ==> t.url in r by {
      forall t | t in chosen ensures t.url in r {
        var k :| 0 <= k < |chosen| && chosen[k] == t;
        assert r[k] == t.url;
      }
    }
    r
  }

  /** Index of the first playlist holding a track with identifier `id`. */
  function FirstPlaylistWith(playlists: seq<Playlist>, id: Uuid): (r: Option<nat>)
    ensures r.Some? ==> r.value < |playlists| && IndexOfId(playlists[r.value].tracks, id).Some?
    ensures r.Some? ==> forall j :: 0 <= j < r.value ==> IndexOfId(playlists[j].tracks, id).None?
    ensures r.None? <==> forall j :: 0 <= j < |playlists| ==> IndexOfId(playlists[j].tracks, id).None?
  {
    if playlists == [] then None
    else if IndexOfId(playlists[0].tracks, id).Some? then Some(0)
    else match FirstPlaylistWith(playlists[1..], id)
      case None => None
      case Some(k) => Some(k + 1)
  }

  /** The track `restoreLastPlayedTrack` restores for the saved id: the first
      match in the first playlist that has one. */
  function FirstTrackWithId(playlists: seq<Playlist>, id: Uuid): (r: Option<Track>)
    ensures r.Some? <==> FirstPlaylistWith(playlists, id).Some?
    ensures r.Some? ==> r.value.id == id &&
                        r.value in playlists[FirstPlaylistWith(playlists, id).value].tracks
  {
    match FirstPlaylistWith(playlists, id)
    case None => None
    case Some(i) => Some(playlists[i].tracks[IndexOfId(playlists[i].tracks, id).value])
  }

  /** Restoring finds a track exactly when some playlist holds the id, and
      what it finds is a track of the library with that id. */
  lemma FirstTrackWithIdFound(playlists: seq<Playlist>, id: Uuid)
    ensures FirstTrackWithId(playlists, id).Some? ==>
            FirstTrackWithId(playlists, id).value.id == id &&
            FirstTrackWithId(playlists, id).value in AllTracks(playlists)
    ensures FirstTrackWithId(playlists, id).None? <==>
            forall t :: t in AllTracks(playlists) ==> t.id != id
  {
    var r := FirstTrackWithId(playlists, id);
    if r.Some? {
      var i := FirstPlaylistWith(playlists, id).value;
      AllTracksContains(playlists, r.value);
    } else {
      forall t | t in AllTracks(playlists) ensures t.id != id {
        AllTracksContains(playlists, t);
        var i :| 0 <= i < |playlists| && t in playlists[i].tracks;
        var k :| 0 <= k < |playlists[i].tracks| && playlists[i].tracks[k] == t;
      }
    }
  }

  // The import loop (`documentPicker(_:didPickDocumentsAt:)`) on one playlist.

  /** How far the app got with one picked file before creating its track. */
  datatype CopyStatus = AccessDenied | CopyFailed | Copied

  /** A picked file: its last path component, the fresh id its track would
      get, and whether access and the copy into the documents folder worked. */
  datatype PickedFile = PickedFile(name: string, newId: Uuid, status: CopyStatus)

  /** The copy's location in the documents folder `dir`. */
  function DocumentUrl(dir: Url, name: string): Url
  {
    dir + "/" + name
  }

  /** Within one folder, different names give different copies. */
  lemma DocumentUrlInjective(dir: Url, a: string, b: string)
    ensures DocumentUrl(dir, a) == DocumentUrl(dir, b) <==> a == b
  {
    if DocumentUrl(dir, a) == DocumentUrl(dir, b) {
      assert a == DocumentUrl(dir, a)[|dir| + 1..];
      assert b == DocumentUrl(dir, b)[|dir| + 1..];
    }
  }

  /** The track made for a copied file (`Track(id: UUID(), title: …, url: …)`). */
  function PickedTrack(f: PickedFile, dir: Url): Track
  {
    Track(f.newId, f.name, DocumentUrl(dir, f.name))
  }

  /** The playlist after the loop, and the titles reported as added and as
      duplicates. */
  datatype ImportResult = ImportResult(playlist: Playlist, added: seq<string>, duplicates: seq<string>)

  /** One iteration: a file that was not accessed or not copied changes
      nothing; a copied file whose copy is already in the playlist is
      reported as a duplicate; any other copied file has its track appended
      and is reported as added. */
  function ImportStep(r: ImportResult, f: PickedFile, dir: Url): (s: ImportResult)
    ensures f.status != Copied ==> s == r
    ensures f.status == Copied && HasUrl(r.playlist.tracks, DocumentUrl(dir, f.name)) ==>
              s == r.(duplicates := r.duplicates + [f.name])
    ensures f.status == Copied && !HasUrl(r.playlist.tracks, DocumentUrl(dir, f.name)) ==>
              s == ImportResult(r.playlist.(tracks := r.playlist.tracks + [PickedTrack(f, dir)]),
                                r.added + [f.name], r.duplicates)
  {
    if f.status != Copied then r
    else
      var t := PickedTrack(f, dir);
      var o := AddTrack(r.playlist, t);
      if o.added then ImportResult(o.playlist, r.added + [t.title], r.duplicates)
      else ImportResult(o.playlist, r.added, r.duplicates + [t.title])
  }

  function CopiedCount(files: seq<PickedFile>): nat
  {
    if files == [] then 0
    else CopiedCount(files[..|files| - 1]) + (if files[|files| - 1].status == Copied then 1 else 0)
  }

  function TitleOf(t: Track): string
  {
    t.title
  }

  /** The loop over all picked files, from playlist `p`: only the tracks
      change, and every copied file is reported exactly once. */
  function Import(p: Playlist, files: seq<PickedFile>, dir: Url): (r: ImportResult)
    ensures r.playlist == p.(tracks := r.playlist.tracks)
    ensures |r.added| + |r.duplicates| == CopiedCount(files)
    decreases |files|
  {
    if files == [] then ImportResult(p, [], [])
    else ImportStep(Import(p, files[..|files| - 1], dir), files[|files| - 1], dir)
  }

  /** What the import loop guarantees about result `r`, started from playlist
      `p`, after `copied` files were copied: only the tracks change; the old
      tracks stay in front; the added titles name exactly the appended tracks,
      in order; every copied file is reported once, as added or as duplicate;
      each duplicate's file is in the playlist; no file appears twice. */
  ghost predicate ImportedFrom(p: Playlist, r: ImportResult, dir: Url, copied: nat)
  {
    && r.playlist == p.(tracks := r.playlist.tracks)
    && |p.tracks| <= |r.playlist.tracks|
    && r.playlist.tracks[..|p.tracks|] == p.tracks
    && MapSeq(r.playlist.tracks[|p.tracks|..], TitleOf) == r.added
    && |r.added| + |r.duplicates| == copied
    && (forall k :: 0 <= k < |r.duplicates| ==>
          HasUrl(r.playlist.tracks, DocumentUrl(dir, r.duplicates[k])))
    && (DistinctUrls(p.tracks) ==> DistinctUrls(r.playlist.tracks))
  }

  /** One iteration keeps the loop's guarantee. */
  lemma ImportStepKeeps(p: Playlist, prev: ImportResult, f: PickedFile, dir: Url, copied: nat)
    requires ImportedFrom(p, prev, dir, copied)
    ensures ImportedFrom(p, ImportStep(prev, f, dir), dir,
                         copied + if f.status == Copied then 1 else 0)
  {
    if f.status == Copied {
      var t := PickedTrack(f, dir);
      var o := AddTrack(prev.playlist, t);
      var r := ImportStep(prev, f, dir);
      var before := prev.playlist.tracks;
      if o.added {
        assert r.playlist.tracks == before + [t];
        assert r.added == prev.added + [t.title] && r.duplicates == prev.duplicates;
        assert (before + [t])[..|p.tracks|] == before[..|p.tracks|];
        assert (before + [t])[|p.tracks|..] == before[|p.tracks|..] + [t];
        MapSeqAppend(before[|p.tracks|..], [t], TitleOf);
        assert MapSeq([t], TitleOf) == [t.title];
        assert MapSeq(r.playlist.tracks[|p.tracks|..], TitleOf) == r.added;
        forall k | 0 <= k < |r.duplicates|
          ensures HasUrl(r.playlist.tracks, DocumentUrl(dir, r.duplicates[k]))
        {
          HasUrlAppend(before, [t], DocumentUrl(dir, r.duplicates[k]));
        }
      } else {
        assert r.duplicates == prev.duplicates + [f.name];
      }
    }
  }

  // The same loop, file by file: which picked files end up as new tracks.

  /** The picked file at position `k` is new: it was copied, its copy is not
      among `tracks` (the playlist before the import), and no earlier copied
      file of the same pick has the same name. */
  predicate IsFresh(tracks: seq<Track>, files: seq<PickedFile>, dir: Url, k: nat)
    requires k < |files|
  {
    && files[k].status == Copied
    && !HasUrl(tracks, DocumentUrl(dir, files[k].name))
    && forall j :: 0 <= j < k && files[j].status == Copied ==> files[j].name != files[k].name
  }

  /** The new files, in pick order. */
  function FreshFiles(tracks: seq<Track>, files: seq<PickedFile>, dir: Url): seq<PickedFile>
    decreases |files|
  {
    if files == [] then []
    else
      var k := |files| - 1;
      FreshFiles(tracks, files[..k], dir) + if IsFresh(tracks, files, dir, k) then [files[k]] else []
  }

  /** The copied files that are not new, in pick order. */
  function RepeatedFiles(tracks: seq<Track>, files: seq<PickedFile>, dir: Url): seq<PickedFile>
    decreases |files|
  {
    if files == [] then []
    else
      var k := |files| - 1;
      RepeatedFiles(tracks, files[..k], dir) +
        if files[k].status == Copied && !IsFresh(tracks, files, dir, k) then [files[k]] else []
  }

  function FileTrack(dir: Url): PickedFile -> Track
  {
    (f: PickedFile) => PickedTrack(f, dir)
  }

  function FileName(f: PickedFile): string
  {
    f.name
  }

  /** Some copied file of the pick has its copy at `url`. */
  predicate CopiedTo(files: seq<PickedFile>, dir: Url, url: Url)
  {
    exists j :: 0 <= j < |files| && files[j].status == Copied && DocumentUrl(dir, files[j].name) == url
  }

  /** The last file adds its copy, if copied, to the urls of the earlier ones. */
  lemma CopiedToLast(files: seq<PickedFile>, dir: Url, url: Url)
    requires files != []
    ensures CopiedTo(files, dir, url) <==>
            CopiedTo(files[..|files| - 1], dir, url) ||
            (files[|files| - 1].status == Copied && DocumentUrl(dir, files[|files| - 1].name) == url)
  {
    var k := |files| - 1;
    if CopiedTo(files[..k], dir, url) {
      var j :| 0 <= j < k && files[..k][j].status == Copied && DocumentUrl(dir, files[..k][j].name) == url;
      assert files[j] == files[..k][j];
    }
    if CopiedTo(files, dir, url) {
      var j :| 0 <= j < |files| && files[j].status == Copied && DocumentUrl(dir, files[j].name) == url;
      if j < k {
        assert files[..k][j] == files[j];
      }
    }
  }

  /** The import as a function of the picked files alone: the appended tracks
      are the new files' tracks and the added titles their names, both in pick
      order; the duplicates are the other copied files' names; and the
      playlist ends up holding exactly its old files and every copied one. */
  ghost predicate ClassifiedFrom(p: Playlist, files: seq<PickedFile>, dir: Url, r: ImportResult)
  {
    && r.playlist.tracks == p.tracks + MapSeq(FreshFiles(p.tracks, files, dir), FileTrack(dir))
    && r.added == MapSeq(FreshFiles(p.tracks, files, dir), FileName)
    && r.duplicates == MapSeq(RepeatedFiles(p.tracks, files, dir), FileName)
    && forall url :: HasUrl(r.playlist.tracks, url) <==> HasUrl(p.tracks, url) || CopiedTo(files, dir, url)
  }

  /** A copied file is new exactly when its copy is not yet in the playlist
      the loop has built so far. */
  lemma FreshIffAbsent(p: Playlist, files: seq<PickedFile>, dir: Url, prev: ImportResult)
    requires files != [] && files[|files| - 1].status == Copied
    requires forall url :: HasUrl(prev.playlist.tracks, url) <==>
                           HasUrl(p.tracks, url) || CopiedTo(files[..|files| - 1], dir, url)
    ensures IsFresh(p.tracks, files, dir, |files| - 1) <==>
            !HasUrl(prev.playlist.tracks, DocumentUrl(dir, files[|files| - 1].name))
  {
    var k := |files| - 1;
    var url := DocumentUrl(dir, files[k].name);
    if CopiedTo(files[..k], dir, url) {
      var j :| 0 <= j < k && files[..k][j].status == Copied && DocumentUrl(dir, files[..k][j].name) == url;
      DocumentUrlInjective(dir, files[j].name, files[k].name);
      assert files[..k][j] == files[j];
    }
    if !IsFresh(p.tracks, files, dir, k) && !HasUrl(p.tracks, url) {
      var j :| 0 <= j < k && files[j].status == Copied && files[j].name == files[k].name;
      assert files[..k][j] == files[j];
    }
  }

  /** The urls of the copied files grow by the last file's copy, if any. */
  lemma CopiedToStep(files: seq<PickedFile>, dir: Url)
    requires files != []
    ensures forall u :: CopiedTo(files, dir, u) <==>
              CopiedTo(files[..|files| - 1], dir, u) ||
              (files[|files| - 1].status == Copied && DocumentUrl(dir, files[|files| - 1].name) == u)
  {
    forall u
      ensures CopiedTo(files, dir, u) <==>
                CopiedTo(files[..|files| - 1], dir, u) ||
                (files[|files| - 1].status == Copied && DocumentUrl(dir, files[|files| - 1].name) == u)
    {
      CopiedToLast(files, dir, u);
    }
  }

  /** A file that was not copied leaves the description as it was. */
  lemma ClassifiedNotCopied(p: Playlist, files: seq<PickedFile>, dir: Url)
    requires files != [] && files[|files| - 1].status != Copied
    requires ClassifiedFrom(p, files[..|files| - 1], dir, Import(p, files[..|files| - 1], dir))
    ensures ClassifiedFrom(p, files, dir, Import(p, files, dir))
  {
    var init := files[..|files| - 1];
    assert Import(p, files, dir) == Import(p, init, dir);
    assert FreshFiles(p.tracks, files, dir) == FreshFiles(p.tracks, init, dir);
    assert RepeatedFiles(p.tracks, files, dir) == RepeatedFiles(p.tracks, init, dir);
    CopiedToStep(files, dir);
  }

  /** A new file's copy joins the urls of the playlist. */
  lemma FreshUrls(p: Playlist, files: seq<PickedFile>, dir: Url)
    requires files != [] && IsFresh(p.tracks, files, dir, |files| - 1)
    requires forall u :: HasUrl(Import(p, files[..|files| - 1], dir).playlist.tracks, u) <==>
                         HasUrl(p.tracks, u) || CopiedTo(files[..|files| - 1], dir, u)
    ensures forall u :: HasUrl(Import(p, files, dir).playlist.tracks, u) <==>
                        HasUrl(p.tracks, u) || CopiedTo(files, dir, u)
  {
    var k := |files| - 1;
    var prev, r := Import(p, files[..k], dir), Import(p, files, dir);
    var t := PickedTrack(files[k], dir);
    FreshIffAbsent(p, files, dir, prev);
    assert r.playlist.tracks == prev.playlist.tracks + [t];
    forall u ensures HasUrl(r.playlist.tracks, u) <==> HasUrl(p.tracks, u) || CopiedTo(files, dir, u) {
      assert HasUrl(r.playlist.tracks, u) <==> HasUrl(prev.playlist.tracks, u) || u == t.url by {
        assert t in [t];
      }
      CopiedToLast(files, dir, u);
    }
  }

  /** A new file appends its track and its name, and its copy joins the urls. */
  lemma ClassifiedFresh(p: Playlist, files: seq<PickedFile>, dir: Url)
    requires files != [] && IsFresh(p.tracks, files, dir, |files| - 1)
    requires ClassifiedFrom(p, files[..|files| - 1], dir, Import(p, files[..|files| - 1], dir))
    ensures ClassifiedFrom(p, files, dir, Import(p, files, dir))
  {
    var k := |files| - 1;
    var init, f := files[..k], files[k];
    var prev, r := Import(p, init, dir), Import(p, files, dir);
    var newOnes := FreshFiles(p.tracks, init, dir);
    FreshIffAbsent(p, files, dir, prev);
    assert r.playlist.tracks == prev.playlist.tracks + [PickedTrack(f, dir)];
    assert FreshFiles(p.tracks, files, dir) == newOnes + [f];
    assert r.playlist.tracks == p.tracks + MapSeq(newOnes + [f], FileTrack(dir)) by {
      MapSeqAppend(newOnes, [f], FileTrack(dir));
      assert MapSeq([f], FileTrack(dir)) == [PickedTrack(f, dir)];
    }
    assert r.added == MapSeq(newOnes + [f], FileName) by {
      MapSeqAppend(newOnes, [f], FileName);
      assert MapSeq([f], FileName) == [f.name];
    }
    assert RepeatedFiles(p.tracks, files, dir) == RepeatedFiles(p.tracks, init, dir);
    FreshUrls(p, files, dir);
  }

  /** A copied file that is not new is reported as a duplicate and changes
      neither the tracks nor the urls. */
  lemma ClassifiedRepeated(p: Playlist, files: seq<PickedFile>, dir: Url)
    requires files != [] && files[|files| - 1].status == Copied
    requires !IsFresh(p.tracks, files, dir, |files| - 1)
    requires ClassifiedFrom(p, files[..|files| - 1], dir, Import(p, files[..|files| - 1], dir))
    ensures ClassifiedFrom(p, files, dir, Import(p, files, dir))
  {
    var k := |files| - 1;
    var init, f := files[..k], files[k];
    var prev, r := Import(p, init, dir), Import(p, files, dir);
    var repeated := RepeatedFiles(p.tracks, init, dir);
    FreshIffAbsent(p, files, dir, prev);
    assert r.playlist == prev.playlist;
    assert FreshFiles(p.tracks, files, dir) == FreshFiles(p.tracks, init, dir);
    assert RepeatedFiles(p.tracks, files, dir) == repeated + [f];
    MapSeqAppend(repeated, [f], FileName);
    CopiedToStep(files, dir);
  }

  /** One more picked file keeps the file-by-file description. */
  lemma ImportStepClassified(p: Playlist, files: seq<PickedFile>, dir: Url)
    requires files != []
    requires ClassifiedFrom(p, files[..|files| - 1], dir, Import(p, files[..|files| - 1], dir))
    ensures ClassifiedFrom(p, files, dir, Import(p, files, dir))
  {
    if files[|files| - 1].status != Copied {
      ClassifiedNotCopied(p, files, dir);
    } else if IsFresh(p.tracks, files, dir, |files| - 1) {
      ClassifiedFresh(p, files, dir);
    } else {
      ClassifiedRepeated(p, files, dir);
    }
  }

  /** The loop's guarantees hold after any number of picked files: the
      invariant of `ImportedFrom` and the file-by-file description. */
  lemma {:induction false} ImportFacts(p: Playlist, files: seq<PickedFile>, dir: Url)
    ensures ImportedFrom(p, Import(p, files, dir), dir, CopiedCount(files))
    ensures ClassifiedFrom(p, files, dir, Import(p, files, dir))
    decreases |files|
  {
    if files == [] {
      assert p.tracks[..|p.tracks|] == p.tracks;
      assert p.tracks[|p.tracks|..] == [];
      assert p.tracks + [] == p.tracks;
    } else {
      var init := files[..|files| - 1];
      ImportFacts(p, init, dir);
      ImportStepKeeps(p, Import(p, init, dir), files[|files| - 1], dir, CopiedCount(init));
      ImportStepClassified(p, files, dir);
    }
  }

  /** Every copied file's copy is in the playlist after the import, whether
      it was added now or was already there. */
  lemma ImportKeepsEveryCopy(p: Playlist, files: seq<PickedFile>, dir: Url, j: nat)
    requires j < |files| && files[j].status == Copied
    ensures HasUrl(Import(p, files, dir).playlist.tracks, DocumentUrl(dir, files[j].name))
  {
    ImportFacts(p, files, dir);
    assert CopiedTo(files, dir, DocumentUrl(dir, files[j].name));
  }
}
