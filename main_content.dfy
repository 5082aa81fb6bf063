/** The main screen's own state: the playlist tab on show and the
    multi-selection mode driven by tap, long-press, select-all and the
    completion of a delete; and the playlist caption of a search result row. */
module MainContent {
  import opened Common
  import opened TrackModel
  import opened PlaylistModel
  import opened Sequencing
  import opened Library
  import opened ViewModel

  /** The ids of a playlist's tracks (`Set(tracks.map { $0.id })`). */
  function TrackIds(tracks: seq<Track>): (r: set<Uuid>)
    ensures forall id :: id in r <==> exists t :: t in tracks && t.id == id
  {
    set t | t in tracks :: t.id
  }

  class MainContentView {
    var selectedTab: nat
    var selectedTracks: set<Uuid>
    var isSelecting: bool

    /** Outside selection mode nothing is selected: every place that leaves
        selection mode also empties the selection. */
    ghost predicate Valid()
      reads this
    {
      !isSelecting ==> selectedTracks == {}
    }

    constructor ()
      ensures Valid()
      ensures selectedTab == 0 && selectedTracks == {} && !isSelecting
    {
      selectedTab := 0;
      selectedTracks := {};
      isSelecting := false;
    }

    /** Picking a tab. The view model's selected playlist follows only a
        change of tab (`onChange`): picking the tab already shown changes
        nothing, so a selection that was never made stays unmade. */
    method SelectTab(vm: MusicPlayerViewModel, tab: nat)
      requires Valid() && vm.Valid() && tab < |vm.playlists|
      modifies this, vm
      ensures Valid() && vm.Valid()
      ensures tab == old(selectedTab) ==> unchanged(this, vm)
      ensures tab != old(selectedTab) ==> selectedTab == tab && vm.selectedPlaylistIndex == Some(tab)
      ensures selectedTracks == old(selectedTracks) && isSelecting == old(isSelecting)
      ensures vm.playlists == old(vm.playlists) && vm.currentTrack == old(vm.currentTrack)
      ensures vm.isPlaying == old(vm.isPlaying) && vm.hasPlayer == old(vm.hasPlayer)
      ensures vm.duration == old(vm.duration) && vm.currentTime == old(vm.currentTime)
    {
      if tab != selectedTab {
        selectedTab := tab;
        vm.selectedPlaylistIndex := Some(tab);
      }
    }

    /** Tapping a row. In selection mode it toggles the row's id, and
        deselecting the last one leaves selection mode; otherwise it plays
        the track and leaves the selection alone. */
    method TapRow(vm: MusicPlayerViewModel, track: Track, media: Media)
      requires Valid() && vm.Valid()
      modifies this, vm
      ensures Valid() && vm.Valid()
      ensures selectedTab == old(selectedTab)
      ensures old(isSelecting) && track.id in old(selectedTracks) ==>
                && selectedTracks == old(selectedTracks) - {track.id}
                && isSelecting == (selectedTracks != {})
                && unchanged(vm)
      ensures old(isSelecting) && track.id !in old(selectedTracks) ==>
                selectedTracks == old(selectedTracks) + {track.id} && isSelecting && unchanged(vm)
      ensures !old(isSelecting) ==>
                && selectedTracks == old(selectedTracks) && !isSelecting
                && vm.PlayedTrack(track, media)
    {
      if isSelecting {
        if track.id in selectedTracks {
          selectedTracks := selectedTracks - {track.id};
          if selectedTracks == {} {
            isSelecting := false;
          }
        } else {
          selectedTracks := selectedTracks + {track.id};
        }
      } else {
        vm.PlayTrack(track, media);
      }
    }

    /** A long press enters selection mode with the row's id selected. */
    method LongPressRow(track: Track)
      requires Valid()
      modifies this
      ensures Valid()
      ensures isSelecting && selectedTracks == old(selectedTracks) + {track.id}
      ensures selectedTab == old(selectedTab)
    {
      isSelecting := true;
      selectedTracks := selectedTracks + {track.id};
    }

    /** The select-all button, shown only in selection mode. When as many
        ids are selected as the tab's playlist has tracks it clears the
        selection and leaves selection mode; otherwise it selects exactly the
        playlist's track ids. The test compares counts, not the sets. */
    method ToggleSelectAll(vm: MusicPlayerViewModel)
      requires Valid() && isSelecting && selectedTab < |vm.playlists|
      modifies this
      ensures Valid()
      ensures selectedTab == old(selectedTab)
      ensures |old(selectedTracks)| == |vm.playlists[selectedTab].tracks| ==>
                selectedTracks == {} && !isSelecting
      ensures |old(selectedTracks)| != |vm.playlists[selectedTab].tracks| ==>
                selectedTracks == TrackIds(vm.playlists[selectedTab].tracks) && isSelecting
    {
      if |selectedTracks| == |vm.playlists[selectedTab].tracks| {
        selectedTracks := {};
        isSelecting := false;
      } else {
        selectedTracks := TrackIds(vm.playlists[selectedTab].tracks);
      }
    }

    /** Confirming the delete: the view model deletes the selected ids from
        the tab's playlist, and its completion empties the selection and
        leaves selection mode. */
    method ConfirmDelete(vm: MusicPlayerViewModel)
      requires Valid() && vm.Valid() && selectedTab < |vm.playlists|
      modifies this, vm
      ensures Valid() && vm.Valid()
      ensures selectedTracks == {} && !isSelecting && selectedTab == old(selectedTab)
      ensures vm.playlists ==
              old(vm.playlists)[selectedTab := RemoveTracks(old(vm.playlists)[selectedTab],
                                                            old(selectedTracks))]
      ensures vm.selectedPlaylistIndex == old(vm.selectedPlaylistIndex)
      ensures old(vm.currentTrack).Some? && old(vm.currentTrack).value.id in old(selectedTracks) ==>
                !vm.hasPlayer && vm.currentTrack == None && vm.currentTime == 0.0
                && vm.duration == None && !vm.isPlaying
      ensures !(old(vm.currentTrack).Some? && old(vm.currentTrack).value.id in old(selectedTracks)) ==>
                && vm.currentTrack == old(vm.currentTrack) && vm.isPlaying == old(vm.isPlaying)
                && vm.hasPlayer == old(vm.hasPlayer) && vm.duration == old(vm.duration)
                && vm.currentTime == old(vm.currentTime)
      ensures vm.currentTrack.Some? ==> vm.currentTrack.value.id !in old(selectedTracks)
    {
      vm.DeleteTracks(selectedTracks, selectedTab);
      selectedTracks := {};
      isSelecting := false;
    }

    /** The share button: the files of the selected ids in the tab's
        playlist, as `getURLsForTracks` lists them. */
    method Share(vm: MusicPlayerViewModel) returns (urls: seq<Url>)
      requires selectedTab < |vm.playlists|
      ensures forall u :: u in urls <==>
                exists t :: t in vm.playlists[selectedTab].tracks && t.id in selectedTracks && t.url == u
    {
      urls := TrackUrls(vm.playlists[selectedTab].tracks, selectedTracks);
    }

    /** The add button: the tab's playlist becomes the selected one, and the
        files then picked are imported into it. */
    method AddToTab(vm: MusicPlayerViewModel, files: seq<PickedFile>, dir: Url)
      returns (added: seq<string>, duplicates: seq<string>)
      requires Valid() && vm.Valid() && selectedTab < |vm.playlists|
      modifies vm
      ensures vm.Valid() && vm.selectedPlaylistIndex == Some(selectedTab)
      ensures var r := Import(old(vm.playlists)[selectedTab], files, dir);
              && vm.playlists == old(vm.playlists)[selectedTab := r.playlist]
              && added == r.added && duplicates == r.duplicates
      ensures vm.currentTrack == old(vm.currentTrack) && vm.isPlaying == old(vm.isPlaying)
      ensures vm.hasPlayer == old(vm.hasPlayer) && vm.duration == old(vm.duration)
      ensures vm.currentTime == old(vm.currentTime)
    {
      vm.selectedPlaylistIndex := Some(selectedTab);
      added, duplicates := vm.ImportFiles(files, dir);
    }
  }

  /** The caption of a search result row (`TrackRow.playlistName(for:)`):
      "Playlist: " and the name of the first playlist holding the track's id,
      or the empty string when none does. */
  function PlaylistName(playlists: seq<Playlist>, track: Track): (r: string)
    ensures r == [] <==> forall t :: t in AllTracks(playlists) ==> t.id != track.id
    ensures r != [] ==>
              exists i :: 0 <= i < |playlists| && r == "Playlist: " + playlists[i].name &&
                          IndexOfId(playlists[i].tracks, track.id).Some? &&
                          forall j :: 0 <= j < i ==> IndexOfId(playlists[j].tracks, track.id).None?
  {
    FirstTrackWithIdFound(playlists, track.id);
    match FirstPlaylistWith(playlists, track.id)
    case None => ""
    case Some(i) => "Playlist: " + playlists[i].name
  }
}
