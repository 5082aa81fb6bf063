/** The view model: the four playlists, the playback cursor and the player
    state, with the operations the screens call. The audio player itself is
    reduced to `hasPlayer` (a player exists) and the `Media` answer the
    platform gives when a file is loaded. */
module ViewModel {
  import opened Common
  import opened TrackModel
  import opened PlaylistModel
  import opened Sequencing
  import opened Library

  /** What loading a track's file yields: missing, not playable, a player
      that could not be created, or a player for audio of the given length. */
  datatype Media = FileMissing | NotPlayable | LoadFailed | Playable(duration: real)

  /** The last-played record read back from the key-value store. */
  datatype SavedPlayback = SavedPlayback(trackId: Uuid, time: real, wasPlaying: bool)

  /** The app's fixed set of playlists, named "1" to "4". */
  const PlaylistNames: seq<string> := ["1", "2", "3", "4"]

  class MusicPlayerViewModel {
    var playlists: seq<Playlist>
    var currentTrack: Option<Track>
    var currentTime: real
    var duration: Option<real>
    var isPlaying: bool
    /** A player object exists (`audioPlayer != nil`). */
    var hasPlayer: bool
    var selectedPlaylistIndex: Option<nat>

    /** Four playlists, a selection that names one of them, and no playlist
        holding two tracks for the same file. */
    ghost predicate Valid()
      reads this
    {
      && |playlists| == |PlaylistNames|
      && (selectedPlaylistIndex.Some? ==> selectedPlaylistIndex.value < |playlists|)
      && forall i :: 0 <= i < |playlists| ==> DistinctUrls(playlists[i].tracks)
    }

    /** The first-launch state: four empty playlists with fresh ids. */
    constructor (ids: seq<Uuid>)
      requires |ids| == |PlaylistNames|
      ensures Valid()
      ensures |playlists| == |PlaylistNames|
      ensures forall i :: 0 <= i < |playlists| ==>
                playlists[i] == Playlist(ids[i], PlaylistNames[i], [], false, false)
      ensures currentTrack == None && currentTime == 0.0 && duration == None
      ensures !isPlaying && !hasPlayer && selectedPlaylistIndex == None
    {
      playlists := seq(|PlaylistNames|, i requires 0 <= i < |PlaylistNames| =>
                         Playlist(ids[i], PlaylistNames[i], [], false, false));
      currentTrack := None;
      currentTime := 0.0;
      duration := None;
      isPlaying := false;
      hasPlayer := false;
      selectedPlaylistIndex := None;
    }

    /** Only the player state and the cursor change: the library and the
        selection stay as they were. */
    twostate predicate LibraryKept()
      reads this
    {
      playlists == old(playlists) && selectedPlaylistIndex == old(selectedPlaylistIndex)
    }

    /** The effect of `playTrack(track)`: the cursor moves to `track` before
        the file is checked, so it moves even when playback fails; only a
        playable file replaces the player and starts it. */
    twostate predicate PlayedTrack(track: Track, media: Media)
      reads this
    {
      && LibraryKept()
      && currentTrack == Some(track)
      && currentTime == old(currentTime)
      && if media.Playable? then
           hasPlayer && isPlaying && duration == Some(media.duration)
         else
           hasPlayer == old(hasPlayer) && isPlaying == old(isPlaying) && duration == old(duration)
    }

    /** The state `stopPlayback` leaves: no player, no cursor, time zero. */
    twostate predicate Stopped()
      reads this
    {
      && LibraryKept()
      && !hasPlayer && currentTrack == None && currentTime == 0.0
      && duration == None && !isPlaying
    }

    method PlayTrack(track: Track, media: Media)
      requires Valid()
      modifies this
      ensures Valid() && PlayedTrack(track, media)
    {
      currentTrack := Some(track);
      if media == FileMissing {
        return;
      }
      if media == NotPlayable {
        return;
      }
      if media.Playable? {
        hasPlayer := true;
        duration := Some(media.duration);
        isPlaying := true;
      }
      // LoadFailed: creating the player threw, so the old player stays.
    }

    /** Pause a playing player, resume a paused one, or with no player
        (re)start the current track. */
    method PlayPause(media: Media)
      requires Valid()
      modifies this
      ensures Valid()
      ensures old(hasPlayer) ==>
                && LibraryKept() && isPlaying == !old(isPlaying) && hasPlayer
                && currentTrack == old(currentTrack) && duration == old(duration)
                && currentTime == old(currentTime)
      ensures !old(hasPlayer) && old(currentTrack).Some? ==>
                PlayedTrack(old(currentTrack).value, media)
      ensures !old(hasPlayer) && old(currentTrack).None? ==> unchanged(this)
    {
      if hasPlayer && isPlaying {
        isPlaying := false;
      } else if hasPlayer {
        isPlaying := true;
      } else if currentTrack.Some? {
        PlayTrack(currentTrack.value, media);
      }
    }

    /** `playNext`: nothing without a selected playlist; otherwise the move
        `NextStep` prescribes for the selected playlist. `spun` reports that
        the shuffle's redraw loop had not stopped after the given draws, in
        which case nothing changes. */
    method PlayNext(draws: seq<nat>, media: Media) returns (spun: bool)
      requires Valid()
      modifies this
      ensures Valid()
      ensures old(selectedPlaylistIndex).None? ==> unchanged(this) && !spun
      ensures old(selectedPlaylistIndex).Some? ==>
                var step := NextStep(old(playlists)[old(selectedPlaylistIndex).value],
                                     old(currentTrack), draws);
                && (step.Stay? ==> unchanged(this) && !spun)
                && (step.Spin? ==> unchanged(this) && spun)
                && (step.Play? ==> PlayedTrack(step.track, media) && !spun)
    {
      spun := false;
      if selectedPlaylistIndex.None? {
        return;
      }
      var playlist := playlists[selectedPlaylistIndex.value];
      if playlist.isLooping && currentTrack.Some? {
        PlayTrack(currentTrack.value, media);
      } else {
        if currentTrack.None? {
          return;
        }
        var found := IndexOfId(playlist.tracks, currentTrack.value.id);
        if found.None? {
          return;
        }
        var next := ChooseNextIndex(|playlist.tracks|, found.value, playlist.isShuffling, draws);
        if next.None? {
          spun := true;
          return;
        }
        PlayTrack(playlist.tracks[next.value], media);
      }
    }

    /** `playPrevious`: the sequential predecessor in the selected playlist,
        or nothing when there is no cursor, no selection, or the cursor's id
        is not in the selected playlist. */
    method PlayPrevious(media: Media)
      requires Valid()
      modifies this
      ensures Valid()
      ensures var prev := if old(selectedPlaylistIndex).None? then None
                          else PreviousStep(old(playlists)[old(selectedPlaylistIndex).value],
                                            old(currentTrack));
              && (prev.None? ==> unchanged(this))
              && (prev.Some? ==> PlayedTrack(prev.value, media))
    {
      if currentTrack.None? || selectedPlaylistIndex.None? {
        return;
      }
      var tracks := playlists[selectedPlaylistIndex.value].tracks;
      var found := IndexOfId(tracks, currentTrack.value.id);
      if found.None? {
        return;
      }
      PlayTrack(tracks[PreviousIndex(found.value, |tracks|)], media);
    }

    method StopPlayback()
      requires Valid()
      modifies this
      ensures Valid() && Stopped()
    {
      hasPlayer := false;
      currentTrack := None;
      currentTime := 0.0;
      duration := None;
      isPlaying := false;
    }

    /** `deleteTracks`: stop first when the current track is among the ids,
        then remove the ids from exactly the chosen playlist. */
    method DeleteTracks(ids: set<Uuid>, index: nat)
      requires Valid() && index < |playlists|
      modifies this
      ensures Valid()
      ensures playlists == old(playlists)[index := RemoveTracks(old(playlists)[index], ids)]
      ensures selectedPlaylistIndex == old(selectedPlaylistIndex)
      ensures old(currentTrack).Some? && old(currentTrack).value.id in ids ==>
                !hasPlayer && currentTrack == None && currentTime == 0.0
                && duration == None && !isPlaying
      ensures !(old(currentTrack).Some? && old(currentTrack).value.id in ids) ==>
                && currentTrack == old(currentTrack) && isPlaying == old(isPlaying)
                && hasPlayer == old(hasPlayer) && duration == old(duration)
                && currentTime == old(currentTime)
      ensures currentTrack.Some? ==> currentTrack.value.id !in ids
    {
      if currentTrack.Some? && currentTrack.value.id in ids {
        StopPlayback();
      }
      RemoveTracksKeepsDistinct(playlists[index], ids);
      playlists := playlists[index := RemoveTracks(playlists[index], ids)];
    }

    /** The import loop of `documentPicker(_:didPickDocumentsAt:)`: nothing
        without a selected playlist; otherwise each copied file is offered to
        the selected playlist's `addTrack` and its title reported as added or
        as a duplicate, as `Import` describes. Other playlists, the cursor
        and the player are untouched. */
    method ImportFiles(files: seq<PickedFile>, dir: Url)
      returns (added: seq<string>, duplicates: seq<string>)
      requires Valid()
      modifies this
      ensures Valid()
      ensures old(selectedPlaylistIndex).None? ==> unchanged(this) && added == [] && duplicates == []
      ensures old(selectedPlaylistIndex).Some? ==>
                var i := old(selectedPlaylistIndex).value;
                var r := Import(old(playlists)[i], files, dir);
                && playlists == old(playlists)[i := r.playlist]
                && added == r.added && duplicates == r.duplicates
      ensures selectedPlaylistIndex == old(selectedPlaylistIndex)
      ensures currentTrack == old(currentTrack) && isPlaying == old(isPlaying)
      ensures hasPlayer == old(hasPlayer) && duration == old(duration)
      ensures currentTime == old(currentTime)
    {
      added, duplicates := [], [];
      if selectedPlaylistIndex.None? {
        return;
      }
      var index := selectedPlaylistIndex.value;
      ghost var start := playlists[index];
      for k := 0 to |files|
        invariant |playlists| == |old(playlists)|
        invariant playlists == old(playlists)[index := Import(start, files[..k], dir).playlist]
        invariant added == Import(start, files[..k], dir).added
        invariant duplicates == Import(start, files[..k], dir).duplicates
        invariant selectedPlaylistIndex == old(selectedPlaylistIndex)
        invariant currentTrack == old(currentTrack) && isPlaying == old(isPlaying)
        invariant hasPlayer == old(hasPlayer) && duration == old(duration)
        invariant currentTime == old(currentTime)
      {
        assert files[..k + 1][..k] == files[..k];
        var f := files[k];
        if f.status == Copied {
          var track := PickedTrack(f, dir);
          var outcome := AddTrack(playlists[index], track);
          playlists := playlists[index := outcome.playlist];
          if outcome.added {
            added := added + [track.title];
          } else {
            duplicates := duplicates + [track.title];
          }
        }
      }
      assert files[..|files|] == files;
      ImportFacts(start, files, dir);
    }

    /** `restoreLastPlayedTrack`: with a saved record, search the playlists in
        order and stop at the first one holding the saved id; put its track
        under the cursor with the saved time and playing flag. The `seek` it
        ends with has no player at that point and does nothing. */
    method RestoreLastPlayedTrack(saved: Option<SavedPlayback>)
      requires Valid()
      modifies this
      ensures Valid()
      ensures saved.None? || FirstTrackWithId(old(playlists), saved.value.trackId).None? ==>
                unchanged(this)
      ensures saved.Some? && FirstTrackWithId(old(playlists), saved.value.trackId).Some? ==>
                && LibraryKept()
                && currentTrack == FirstTrackWithId(old(playlists), saved.value.trackId)
                && currentTime == saved.value.time && isPlaying == saved.value.wasPlaying
                && hasPlayer == old(hasPlayer) && duration == old(duration)
    {
      if saved.None? {
        return;
      }
      var id := saved.value.trackId;
      var k := 0;
      while k < |playlists|
        invariant 0 <= k <= |playlists|
        invariant forall j :: 0 <= j < k ==> IndexOfId(playlists[j].tracks, id).None?
        invariant unchanged(this)
      {
        var found := IndexOfId(playlists[k].tracks, id);
        if found.Some? {
          assert FirstPlaylistWith(playlists, id) == Some(k);
          currentTrack := Some(playlists[k].tracks[found.value]);
          currentTime := saved.value.time;
          isPlaying := saved.value.wasPlaying;
          break;
        }
        k := k + 1;
      }
    }

    /** `restorePlaybackState`: reload the current track into a player and
        leave it paused. */
    method RestorePlaybackState(media: Media)
      requires Valid()
      modifies this
      ensures Valid()
      ensures old(currentTrack).None? ==> unchanged(this)
      ensures old(currentTrack).Some? ==>
                && LibraryKept() && currentTrack == old(currentTrack) && !isPlaying
                && currentTime == old(currentTime)
                && (media.Playable? ==> hasPlayer && duration == Some(media.duration))
                && (!media.Playable? ==> hasPlayer == old(hasPlayer) && duration == old(duration))
    {
      if currentTrack.Some? {
        PlayTrack(currentTrack.value, media);
        isPlaying := false;
      }
    }
  }
}
