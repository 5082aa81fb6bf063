/** A playlist: identity, display name, ordered tracks and the two playback
    flags. Playlist is a value type in the app, so its two mutating operations
    are modelled as functions from the old value to the new one; the update in
    place happens in the view model, which reassigns its `playlists` field. */
module PlaylistModel {
  import opened Common
  import opened TrackModel

  datatype Playlist = Playlist(
    id: Uuid,
    name: string,
    tracks: seq<Track>,
    isShuffling: bool,
    isLooping: bool)

  /** Some track of `tracks` refers to the file `url` (the duplicate test,
      `contains(where: { $0.url == url })`). */
  predicate HasUrl(tracks: seq<Track>, url: Url)
    ensures HasUrl(tracks, url) <==> exists t :: t in tracks && t.url == url
  {
    if tracks == [] then false
    else
      assert tracks == [tracks[0]] + tracks[1..];
      tracks[0].url == url || HasUrl(tracks[1..], url)
  }

  /** Appending tracks never loses a file. */
  lemma HasUrlAppend(a: seq<Track>, b: seq<Track>, url: Url)
    requires HasUrl(a, url)
    ensures HasUrl(a + b, url)
  {
    var t :| t in a && t.url == url;
    assert t in a + b;
  }

  /** The playlist invariant: no two tracks refer to the same file. */
  predicate DistinctUrls(tracks: seq<Track>)
  {
    forall i, j :: 0 <= i < j < |tracks| ==> tracks[i].url != tracks[j].url
  }

  /** The playlist after an add, and whether the track was added. */
  datatype AddOutcome = AddOutcome(playlist: Playlist, added: bool)

  /** Append `track` unless some track already refers to the same file.
      Duplicates are detected by url only: id and title play no part. */
  function AddTrack(p: Playlist, track: Track): (r: AddOutcome)
    ensures r.added <==> forall t :: t in p.tracks ==> t.url != track.url
    ensures r.playlist.tracks == if r.added then p.tracks + [track] else p.tracks
    ensures r.playlist == p.(tracks := r.playlist.tracks)
    ensures DistinctUrls(p.tracks) ==> DistinctUrls(r.playlist.tracks)
  {
    if !HasUrl(p.tracks, track.url) then
      var tracks := p.tracks + [track];
      assert forall i :: 0 <= i < |p.tracks| ==> tracks[i] == p.tracks[i] && tracks[i] in p.tracks;
      AddOutcome(p.(tracks := tracks), true)
    else
      AddOutcome(p, false)
  }

  /** The test that keeps a track through `removeTracks(with: ids)`. */
  function Unlisted(ids: set<Uuid>): Track -> bool
  {
    (t: Track) => t.id !in ids
  }

  /** Delete every track whose id is in `ids`, keeping the others in order. */
  function RemoveTracks(p: Playlist, ids: set<Uuid>): (r: Playlist)
    ensures r == p.(tracks := r.tracks)
    ensures forall t :: t in r.tracks <==> t in p.tracks && t.id !in ids
    ensures IsSubsequence(r.tracks, p.tracks)
  {
    FilterIsSubsequence(p.tracks, Unlisted(ids));
    p.(tracks := Filter(p.tracks, Unlisted(ids)))
  }

  /** Removal is idempotent. */
  lemma RemoveTracksIdempotent(p: Playlist, ids: set<Uuid>)
    ensures RemoveTracks(RemoveTracks(p, ids), ids) == RemoveTracks(p, ids)
  {
    FilterIdempotent(p.tracks, Unlisted(ids));
  }

  /** Ids that match no track (in particular an empty set) change nothing. */
  lemma RemoveTracksNoneListed(p: Playlist, ids: set<Uuid>)
    requires forall t :: t in p.tracks ==> t.id !in ids
    ensures RemoveTracks(p, ids) == p
  {
    FilterKeepsAll(p.tracks, Unlisted(ids));
  }

  /** Removing the ids of two segments separately or together gives the same
      survivors, in the same order. */
  lemma RemoveTracksSplit(p: Playlist, ids: set<Uuid>, k: nat)
    requires k <= |p.tracks|
    ensures RemoveTracks(p, ids).tracks ==
            RemoveTracks(p.(tracks := p.tracks[..k]), ids).tracks +
            RemoveTracks(p.(tracks := p.tracks[k..]), ids).tracks
  {
    assert p.tracks == p.tracks[..k] + p.tracks[k..];
    FilterAppend(p.tracks[..k], p.tracks[k..], Unlisted(ids));
  }

  /** In a duplicate-free list, the first track's file appears nowhere later. */
  lemma DistinctHead(tracks: seq<Track>)
    requires tracks != [] && DistinctUrls(tracks)
    ensures forall t :: t in tracks[1..] ==> t.url != tracks[0].url
  {
    forall t | t in tracks[1..] ensures t.url != tracks[0].url {
      var m :| 0 <= m < |tracks[1..]| && tracks[1..][m] == t;
      assert tracks[m + 1] == t;
    }
  }

  /** A track whose file is new, put in front of a duplicate-free list. */
  lemma DistinctCons(x: Track, rest: seq<Track>)
    requires DistinctUrls(rest)
    requires forall t :: t in rest ==> t.url != x.url
    ensures DistinctUrls([x] + rest)
  {
    var r := [x] + rest;
    forall i, j | 0 <= i < j < |r| ensures r[i].url != r[j].url {
      assert r[j] == rest[j - 1];
      if i > 0 {
        assert r[i] == rest[i - 1];
      } else {
        assert rest[j - 1] in rest;
      }
    }
  }

  /** Filtering a duplicate-free track list leaves it duplicate-free. */
  lemma {:induction false} FilterKeepsDistinct(tracks: seq<Track>, keep: Track -> bool)
    requires DistinctUrls(tracks)
    ensures DistinctUrls(Filter(tracks, keep))
  {
    if tracks != [] {
      var rest := Filter(tracks[1..], keep);
      FilterKeepsDistinct(tracks[1..], keep);
      if keep(tracks[0]) {
        assert Filter(tracks, keep) == [tracks[0]] + rest;
        DistinctHead(tracks);
        DistinctCons(tracks[0], rest);
      } else {
        assert Filter(tracks, keep) == [] + rest == rest;
      }
    }
  }

  /** Removal preserves the playlist invariant. */
  lemma RemoveTracksKeepsDistinct(p: Playlist, ids: set<Uuid>)
    requires DistinctUrls(p.tracks)
    ensures DistinctUrls(RemoveTracks(p, ids).tracks)
  {
    FilterKeepsDistinct(p.tracks, Unlisted(ids));
  }
}
