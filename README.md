# Music player core, modelled in Dafny

This project models the core of a small iOS music player. The player keeps
four fixed playlists ("1" to "4") of audio files that the user imported. It
plays one track at a time, moves to the next or previous track (with
per-playlist shuffle and loop flags), searches titles across all playlists,
and lets the user select tracks to delete or share.

Modules:

- `TrackModel` (`track.dfy`): a track is an identifier, a title and a file url.
  The identifier is a 128-bit UUID; the url is a string.
- `PlaylistModel` (`playlist.dfy`): the `Playlist` value type and its two
  mutating operations.
  - `addTrack` refuses a second track for the same file.
  - `removeTracks` drops the tracks with the given ids.
  - Playlist is a value type in the app, so both are functions from the old
    playlist to the new one.
- `Sequencing` (`sequencing.dfy`): how next and previous pick a track.
  - Sequential wrap-around.
  - Loop takes precedence over shuffle.
  - Shuffle redraws until it gets a different index. The random draws are a
    parameter, and a run of draws that never stops is the result `Spin`.
- `Library` (`library.dfy`): the view model's read-only queries.
  - `allTracks`, `searchTracks` and `getURLsForTracks`.
  - The "first playlist holding this id" lookup that restoring the last
    track and the search row's caption both use.
  - The import loop's effect on one playlist, as a fold over the picked files.
- `ViewModel` (`view_model.dfy`): the `MusicPlayerViewModel` class. Its
  fields are the playlists, the cursor (`currentTrack`), time, duration, the
  playing flag, whether a player exists, and the selected playlist. Its
  methods are play/pause, next, previous, play track, stop, delete, import,
  and the two restore operations.
  - The class invariant `Valid()`: four playlists, a selection in range,
    and no playlist holding two tracks for the same file.
- `MainContent` (`main_content.dfy`): the main screen's state as a class.
  - Its state is the selected tab, the selected ids and the selection mode.
  - Tap, long-press, select-all, confirm-delete, share and add act on it.
  - `Valid()`: outside selection mode nothing is selected.
  - It also holds the search row's playlist caption.
- `PlaybackControls` (`playback_controls.dfy`): the `MM:SS` time caption
  and the shuffle and loop buttons.
- `Common` (`common.dfy`): `Option`, order-preserving filter, map,
  subsequence and infix predicates, with their lemmas.

Inputs from outside the app become parameters:

- The audio framework's answer on loading a file is a `Media` value.
  - `FileMissing`: the file does not exist.
  - `NotPlayable`: the asset is not playable.
  - `LoadFailed`: creating the player threw.
  - `Playable(duration)`: the player started.
- `Int.random` is a sequence of draws.
- The locale's case folding is a function `fold`.
- The saved last-played record is an `Option<SavedPlayback>`.
- The documents folder is a string `dir`.
- Each picked file's access and copy outcome is a `CopyStatus`.

## Model

| member | source | states |
|---|---|---|
| PlaylistModel.AddTrack | Playlist.swift:10-16 | the track is appended (and `added` is true) exactly when no track of the playlist has the same url; otherwise the playlist is unchanged; name, id and flags never change; a playlist without duplicate files keeps that property |
| PlaylistModel.HasUrl | Playlist.swift:11 | the duplicate test holds exactly when some track of the list has the given url |
| PlaylistModel.RemoveTracks | Playlist.swift:18-20 | the result holds exactly the tracks whose id is not in the set, in their original relative order (a subsequence); nothing but the tracks changes |
| PlaylistModel.RemoveTracksIdempotent | Playlist.swift:18-20 | removing the same ids twice gives the same playlist as removing them once |
| PlaylistModel.RemoveTracksNoneListed | Playlist.swift:18-20 | ids that match no track (an empty set in particular) leave the playlist equal to the original |
| PlaylistModel.RemoveTracksSplit | Playlist.swift:18-20 | removal works segment by segment: the survivors of the whole list are those of any prefix followed by those of the rest |
| PlaylistModel.RemoveTracksKeepsDistinct | Playlist.swift:18-20 | removal keeps a playlist free of duplicate files |
| Sequencing.IndexOfId | MusicPlayerViewModel.swift:74 | returns the first position whose track has the id, or None exactly when no track has it |
| Sequencing.IndexOfIdFindsItself | MusicPlayerViewModel.swift:74 | with unique ids, looking up the id of the track at position k yields k |
| Sequencing.NextIndex | MusicPlayerViewModel.swift:75 | `(i + 1) % n` is in range and is i + 1, except that the last position wraps to 0 |
| Sequencing.PreviousIndex | MusicPlayerViewModel.swift:91 | `(i - 1 + n) % n` is in range and is i - 1, except that position 0 wraps to the last |
| Sequencing.NextPreviousInverse | MusicPlayerViewModel.swift:75-91 | previous after next, and next after previous, return to the starting position |
| Sequencing.FirstOtherDraw | MusicPlayerViewModel.swift:77-81 | the redraw loop stops at an in-range index different from the current one, and that index is the first draw (modulo the count) that differs, every earlier draw having repeated the current index; it has not stopped exactly when every draw repeated the current index |
| Sequencing.ChooseNextIndex | MusicPlayerViewModel.swift:75-81 | without shuffle the next index is the sequential successor; with shuffle it is where the redraw loop stops (None while it has not stopped) |
| Sequencing.NextStep | MusicPlayerViewModel.swift:65-85 | loop with a current track replays it, ahead of shuffle; nothing happens exactly when there is no current track or, not looping, its id is not in the playlist; only shuffle can spin; a non-looping move plays a track of the playlist |
| Sequencing.PreviousStep | MusicPlayerViewModel.swift:87-93 | previous plays a track of the playlist; it does nothing exactly when there is no current track or its id is not in the playlist |
| Sequencing.LoopWinsOverShuffle | MusicPlayerViewModel.swift:69-71 | with both flags set, next replays the current track |
| Sequencing.ShuffleAvoidsCurrent | MusicPlayerViewModel.swift:77-81 | in a playlist without duplicate files, the track shuffle picks is a different file from the current entry |
| Sequencing.SingleTrackShuffleSpins | MusicPlayerViewModel.swift:77-81 | with one track and shuffle on (loop off), the redraw loop never stops, whatever the draws |
| Sequencing.ShuffleCanStop | MusicPlayerViewModel.swift:77-81 | with two or more tracks, a draw exists that stops the redraw loop |
| Sequencing.PreviousUndoesNext | MusicPlayerViewModel.swift:65-93 | without shuffle or loop and with unique ids, next always plays a track, and previous from that track returns to the current entry |
| Sequencing.ThreeTrackWrapAround | MusicPlayerViewModel.swift:75-91 | on tracks A, B, C, next from C plays A and previous from A plays C |
| Library.AllTracks | MusicPlayerViewModel.swift:234-236 | every track of every playlist is in `allTracks()` |
| Library.AllTracksContains | MusicPlayerViewModel.swift:234-236 | a track is in `allTracks()` exactly when some playlist contains it |
| Library.AllTracksAppend | MusicPlayerViewModel.swift:234-236 | `allTracks()` lists the playlists' tracks playlist by playlist, in playlist order |
| Library.MatchesIff | MusicPlayerViewModel.swift:49 | a title matches a query exactly when the folded query occurs at some position of the folded title |
| Library.SearchTracks | MusicPlayerViewModel.swift:46-51 | an empty query finds nothing; otherwise a track is found exactly when it is in some playlist and its folded title contains the folded query; results keep library order |
| Library.SearchFindsOccurrences | MusicPlayerViewModel.swift:46-51 | a non-empty search finds a track exactly when some playlist holds it and the folded query occurs at some position of its folded title |
| Library.SearchIsCaseInsensitive | MusicPlayerViewModel.swift:49 | with ASCII case folding, the query "song" finds the title "Song One" |
| Library.TrackUrls | MusicPlayerViewModel.swift:212-214 | a url is listed exactly when a track of the playlist with a selected id has it; never more urls than tracks |
| Library.FirstPlaylistWith | MusicPlayerViewModel.swift:273-274 | finds the first playlist holding the id (no earlier one holds it), or None exactly when no playlist does |
| Library.FirstTrackWithId | MusicPlayerViewModel.swift:273-274 | a track is found exactly when some playlist holds the id; the found track has the id and belongs to the first playlist that holds it |
| Library.FirstTrackWithIdFound | MusicPlayerViewModel.swift:269-283 | the track restored for a saved id has that id and is in the library; nothing is restored exactly when no track has the id |
| Library.DocumentUrlInjective | MusicPlayerViewModel.swift:154 | within one documents folder, two picked names give the same destination exactly when they are equal |
| Library.ImportStep | MusicPlayerViewModel.swift:147-173 | one picked file: not accessed or not copied changes nothing; a copied file whose destination is already in the playlist only adds its name to the duplicates; any other copied file appends its track (fresh id, its name as title, its destination as url) and adds its name to the added titles |
| Library.Import | MusicPlayerViewModel.swift:147-173 | the loop over the picked files changes only the playlist's tracks, and reports every copied file exactly once, as added or as duplicate |
| Library.ImportStepKeeps | MusicPlayerViewModel.swift:147-173 | one picked file keeps the import guarantee: a copied file is reported once, as added (its track appended) or as duplicate (its file already present); a file not accessed or not copied changes nothing |
| Library.ImportStepClassified | MusicPlayerViewModel.swift:147-173 | one more picked file keeps the file-by-file description: not copied changes nothing, a new file appends its track and its name, any other copied file adds its name to the duplicates |
| Library.FreshIffAbsent | MusicPlayerViewModel.swift:160-166 | a copied file is new (not in the old playlist and not copied earlier in the same pick) exactly when the playlist built so far does not hold its destination |
| Library.ImportFacts | MusicPlayerViewModel.swift:141-184 | after any picked files: only the tracks change; the appended tracks are exactly the tracks of the new files, in pick order, and the added titles their names; the duplicates are the names of the other copied files, in pick order; the playlist then holds exactly its old files and every copied one; added plus duplicates equals the copied files; no file appears twice |
| Library.ImportKeepsEveryCopy | MusicPlayerViewModel.swift:147-173 | every copied file's destination is in the playlist after the import, whether it was added now or already there |
| ViewModel.MusicPlayerViewModel.constructor | MusicPlayerViewModel.swift:8-20 | four empty playlists named "1" to "4" with both flags off; no track, no player, time zero, not playing, no selection |
| ViewModel.MusicPlayerViewModel.PlayTrack | MusicPlayerViewModel.swift:95-132 | the cursor moves to the track even when the file is missing, not playable or fails to load; only a playable file replaces the player, sets the duration and starts playing; the library and selection are untouched |
| ViewModel.MusicPlayerViewModel.PlayPause | MusicPlayerViewModel.swift:53-63 | with a player, flips the playing flag and nothing else; without one, plays the current track, or does nothing when there is none |
| ViewModel.MusicPlayerViewModel.PlayNext | MusicPlayerViewModel.swift:65-85 | without a selected playlist nothing changes; otherwise it plays the track `NextStep` picks, changes nothing when it stays, and reports a redraw loop that has not stopped |
| ViewModel.MusicPlayerViewModel.PlayPrevious | MusicPlayerViewModel.swift:87-93 | plays the track `PreviousStep` picks in the selected playlist, or changes nothing |
| ViewModel.MusicPlayerViewModel.StopPlayback | MusicPlayerViewModel.swift:200-210 | no player, no current track, time zero, no duration, not playing; library and selection kept |
| ViewModel.MusicPlayerViewModel.DeleteTracks | MusicPlayerViewModel.swift:186-198 | only the chosen playlist loses the ids; playback stops exactly when the current track's id is among them and is otherwise untouched; afterwards the current track is never a deleted id |
| ViewModel.MusicPlayerViewModel.ImportFiles | MusicPlayerViewModel.swift:141-184 | without a selected playlist nothing changes; otherwise only the selected playlist changes, to the result of `Import`, and the added and duplicate titles are reported; playback state is untouched |
| ViewModel.MusicPlayerViewModel.RestoreLastPlayedTrack | MusicPlayerViewModel.swift:269-283 | with a saved record whose id some playlist holds, the cursor is the first such track and the saved time and playing flag are restored; otherwise nothing changes |
| ViewModel.MusicPlayerViewModel.RestorePlaybackState | MusicPlayerViewModel.swift:285-291 | with a current track, reloads it into a player (when playable) and leaves it paused; without one, nothing changes |
| MainContent.TrackIds | MainContentView.swift:114 | the set holds exactly the ids of the playlist's tracks |
| MainContent.MainContentView.constructor | MainContentView.swift:5-7 | first tab, empty selection, not in selection mode |
| MainContent.MainContentView.SelectTab | MainContentView.swift:39-41 | picking the tab already shown changes nothing at all; picking another tab makes it the tab and the view model's selected playlist; the selection, the library and playback never change |
| MainContent.MainContentView.TapRow | MainContentView.swift:81-94 | in selection mode a tap toggles the row's id, and removing the last id leaves selection mode; outside it, the track is played and the selection is untouched |
| MainContent.MainContentView.LongPressRow | MainContentView.swift:95-98 | enters selection mode with the row's id added |
| MainContent.MainContentView.ToggleSelectAll | MainContentView.swift:109-115 | when the selection has as many ids as the tab's playlist has tracks, it clears the selection and leaves selection mode; otherwise it selects exactly the playlist's ids |
| MainContent.MainContentView.ConfirmDelete | MainContentView.swift:129-134 | the tab's playlist loses the selected ids, then the selection is emptied and selection mode ends; the selected playlist is kept; playback stops exactly when the current track's id was selected and is otherwise untouched; the current track is never one of the deleted ids |
| MainContent.MainContentView.Share | MainContentView.swift:163-166 | the shared urls are exactly the files of the selected tracks in the tab's playlist |
| MainContent.MainContentView.AddToTab | MainContentView.swift:186-188 | the tab's playlist becomes the selected one, and the picked files are imported into exactly that playlist; playback is untouched |
| MainContent.PlaylistName | MainContentView.swift:253-258 | empty exactly when no playlist holds the track's id; otherwise "Playlist: " followed by the name of the first playlist that holds it |
| PlaybackControls.Digits | PlaybackControlsView.swift:74 | decimal digits of a non-negative number: one digit exactly below 10, at most two below 100, no leading zero |
| PlaybackControls.DigitsRoundTrip | PlaybackControlsView.swift:74 | reading the digits of n back gives n |
| PlaybackControls.Pad2 | PlaybackControlsView.swift:74 | `%02d`: a non-negative number becomes at least two digits that read back as the number, exactly two below 100; a negative one becomes a minus sign and its magnitude |
| PlaybackControls.TruncateToInt | PlaybackControlsView.swift:72 | `Int(time)` rounds toward zero: within one of the time, on the same side of zero |
| PlaybackControls.TruncDiv | PlaybackControlsView.swift:72 | integer division rounds toward zero |
| PlaybackControls.TruncRem | PlaybackControlsView.swift:73 | the remainder completes the division and has the dividend's sign, with magnitude below the divisor |
| PlaybackControls.FormatTime | PlaybackControlsView.swift:71-75 | for a non-negative time the caption is digits, a colon, and exactly two digits; below 100 minutes it is five characters long |
| PlaybackControls.FormatTimeRoundTrip | PlaybackControlsView.swift:71-75 | the caption of a non-negative time reads back as its whole seconds |
| PlaybackControls.FormatTimeExamples | PlaybackControlsView.swift:71-75 | 75.9 seconds shows as "01:15" and 3725 seconds as "62:05" (minutes are not folded into hours) |
| PlaybackControls.ButtonTarget | PlaybackControlsView.swift:32 | the buttons act on the selected playlist, or on the first one when none is selected |
| PlaybackControls.ToggleShuffle | PlaybackControlsView.swift:31-33 | flips the shuffle flag of the selected playlist (the first when none is selected) and changes nothing else |
| PlaybackControls.ToggleLoop | PlaybackControlsView.swift:55-57 | flips the loop flag of the selected playlist (the first when none is selected) and changes nothing else |
| PlaybackControls.LoopOnReplays | PlaybackControlsView.swift:55-57 | once loop is switched on, next replays the current track whatever the shuffle flag and the draws |

## Left out

- Audio output, the audio session, the progress timer and `seek` are not modelled. The player is reduced to the `hasPlayer` and `isPlaying` flags plus a `Media` outcome. `currentTime` only changes where the modelled operations set it.
- The `AudioPlayer` singleton and the app entry point are not modelled. The singleton is not used by the core. The entry point only clears settings on first launch.
- Dispatch queues are not modelled: deferred updates happen at once.
  - `DeleteTracks` and `ConfirmDelete` run the deletion and its completion in one step.
- Status and alert texts are not modelled: `fileStatus`, `alertMessage` and `importedFileName`. The import reports its added and duplicate titles instead of the joined alert text.
- Persistence is not modelled. `savePlaylists`, `loadPlaylists` and `saveLastPlayedTrack` go to a key-value store.
  - `Valid()` assumes the stored library has four playlists and no duplicate files.
  - `RestoreLastPlayedTrack` takes the saved record as a parameter, already decoded.
  - The saved id is compared as a UUID rather than as its `uuidString` form. These agree because the string form is one-to-one.
- The file system is not modelled. Security-scoped access, the copy into the documents folder and its overwrite of an older copy are one `CopyStatus` per picked file. A url is `dir + "/" + name`.
- Locale-aware case-insensitive matching is not modelled exactly. `SearchTracks` takes a per-character folding function, so folds that change a string's length are not captured.
- `Int.random` is a sequence of draws. Each draw is taken modulo the track count, so uniformity is not modelled.
  - `PlayNext` returns `spun` when the draws run out before the redraw loop stops.
  - In the app that loop never ends with a single track (`SingleTrackShuffleSpins`).
- `audioPlayerDidFinishPlaying` is not modelled separately, because it only calls `playNext`.
- The SwiftUI layout, the search field's own state and the share sheet are not modelled. Only the state changes behind the buttons are.
- TruncateToInt: works on Dafny reals and returns an unbounded integer, so it does not model that `Int(time)` traps in the app for NaN, for infinity and for any time of magnitude 2^63 seconds or more (outside `Int`'s 64-bit range). `FormatTime` inherits this: the model captions such times, the app crashes.
- `addTrack()` is not modelled: it only presents the system document picker. Its result is the import modelled by `ImportFiles`.
