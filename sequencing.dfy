/** Which track `playNext` and `playPrevious` move to: locating the current
    track, sequential wrap-around, loop before shuffle, and the shuffle's
    redraw loop. The random draws are a parameter: draw k stands for
    `Int.random(in: 0..<n)` and is read as `draws[k] % n`. */
module Sequencing {
  import opened Common
  import opened TrackModel
  import opened PlaylistModel

  /** Position of the first track with identifier `id` (`firstIndex(where:)`). */
  function IndexOfId(tracks: seq<Track>, id: Uuid): (r: Option<nat>)
    ensures r.Some? ==> r.value < |tracks| && tracks[r.value].id == id
    ensures r.Some? ==> forall j :: 0 <= j < r.value ==> tracks[j].id != id
    ensures r.None? <==> forall j :: 0 <= j < |tracks| ==> tracks[j].id != id
  {
    if tracks == [] then None
    else if tracks[0].id == id then Some(0)
    else match IndexOfId(tracks[1..], id)
      case None => None
      case Some(k) => Some(k + 1)
  }

  /** No two tracks share an identifier. */
  predicate DistinctIds(tracks: seq<Track>)
  {
    forall i, j :: 0 <= i < j < |tracks| ==> tracks[i].id != tracks[j].id
  }

  /** With unique identifiers, looking up a track's id finds that very track. */
  lemma IndexOfIdFindsItself(tracks: seq<Track>, k: nat)
    requires DistinctIds(tracks) && k < |tracks|
    ensures IndexOfId(tracks, tracks[k].id) == Some(k)
  {
    var r := IndexOfId(tracks, tracks[k].id);
    assert r.Some?;
  }

  /** Sequential successor, `(i + 1) % n`: the last position wraps to the first. */
  function NextIndex(i: nat, n: nat): (r: nat)
    requires i < n
    ensures r < n
    ensures r == if i + 1 == n then 0 else i + 1
  {
    (i + 1) % n
  }

  /** Sequential predecessor, `(i - 1 + n) % n`: the first position wraps to the last. */
  function PreviousIndex(i: nat, n: nat): (r: nat)
    requires i < n
    ensures r < n
    ensures r == if i == 0 then n - 1 else i - 1
  {
    (i - 1 + n) % n
  }

  /** Previous undoes next and next undoes previous. */
  lemma NextPreviousInverse(i: nat, n: nat)
    requires i < n
    ensures PreviousIndex(NextIndex(i, n), n) == i
    ensures NextIndex(PreviousIndex(i, n), n) == i
  {
  }

  /** Where the shuffle's `repeat { draw } while draw == current` loop stops:
      at the first draw that differs from `current`. None means every draw
      given repeated `current`, so the loop is still running. */
  function FirstOtherDraw(draws: seq<nat>, n: nat, current: nat): (r: Option<nat>)
    requires current < n
    ensures r.Some? ==> r.value < n && r.value != current
    ensures r.Some? ==> exists k :: 0 <= k < |draws| && r.value == draws[k] % n &&
                                   forall j :: 0 <= j < k ==> draws[j] % n == current
    ensures r.None? <==> forall k :: 0 <= k < |draws| ==> draws[k] % n == current
  {
    if draws == [] then None
    else if draws[0] % n != current then Some(draws[0] % n)
    else
      var rest := FirstOtherDraw(draws[1..], n, current);
      assert rest.Some? ==> exists k :: 0 <= k < |draws| && rest.value == draws[k] % n &&
                                       forall j :: 0 <= j < k ==> draws[j] % n == current by {
        if rest.Some? {
          var k :| 0 <= k < |draws[1..]| && rest.value == draws[1..][k] % n &&
                   forall j :: 0 <= j < k ==> draws[1..][j] % n == current;
          assert forall j :: 0 <= j < k + 1 ==> draws[j] % n == current by {
            forall j | 0 <= j < k + 1 ensures draws[j] % n == current {
              if j > 0 {
                assert draws[j] == draws[1..][j - 1];
              }
            }
          }
        }
      }
      rest
  }

  /** The index `playNext` moves to from position `current` of `n` tracks:
      the sequential successor, replaced under shuffle by the redraw loop's
      result (None while that loop has not stopped). */
  method ChooseNextIndex(n: nat, current: nat, shuffling: bool, draws: seq<nat>)
    returns (next: Option<nat>)
    requires current < n
    ensures !shuffling ==> next == Some(NextIndex(current, n))
    ensures shuffling ==> next == FirstOtherDraw(draws, n, current)
  {
    var nextIndex := (current + 1) % n;
    if shuffling {
      var k := 0;
      while k < |draws|
        invariant 0 <= k <= |draws|
        invariant FirstOtherDraw(draws[k..], n, current) == FirstOtherDraw(draws, n, current)
      {
        nextIndex := draws[k] % n;
        if nextIndex != current {
          return Some(nextIndex);
        }
        assert draws[k..][1..] == draws[k + 1..];
        k := k + 1;
      }
      return None;
    }
    return Some(nextIndex);
  }

  /** What `playNext` does: stay put, play a track, or spin in the shuffle loop. */
  datatype Step = Stay | Play(track: Track) | Spin

  /** The move `playNext` makes in playlist `p` from the current track. */
  function NextStep(p: Playlist, current: Option<Track>, draws: seq<nat>): (r: Step)
    ensures p.isLooping && current.Some? ==> r == Play(current.value)
    ensures r == Stay <==>
            current.None? || (!p.isLooping && IndexOfId(p.tracks, current.value.id).None?)
    ensures r.Spin? ==> p.isShuffling && !p.isLooping
    ensures r.Play? && !p.isLooping ==> r.track in p.tracks
  {
    if p.isLooping && current.Some? then Play(current.value)
    else if current.None? then Stay
    else match IndexOfId(p.tracks, current.value.id)
      case None => Stay
      case Some(i) =>
        if !p.isShuffling then Play(p.tracks[NextIndex(i, |p.tracks|)])
        else match FirstOtherDraw(draws, |p.tracks|, i)
          case None => Spin
          case Some(k) => Play(p.tracks[k])
  }

  /** The move `playPrevious` makes: the sequential predecessor, with no
      loop or shuffle variant. */
  function PreviousStep(p: Playlist, current: Option<Track>): (r: Option<Track>)
    ensures r.Some? ==> r.value in p.tracks
    ensures r.None? <==> current.None? || IndexOfId(p.tracks, current.value.id).None?
  {
    if current.None? then None
    else match IndexOfId(p.tracks, current.value.id)
      case None => None
      case Some(i) => Some(p.tracks[PreviousIndex(i, |p.tracks|)])
  }

  /** Loop wins over shuffle: with both flags set, next replays the current track. */
  lemma LoopWinsOverShuffle(p: Playlist, current: Track, draws: seq<nat>)
    requires p.isLooping && p.isShuffling
    ensures NextStep(p, Some(current), draws) == Play(current)
  {
  }

  /** Shuffle never replays the current entry: in a duplicate-free playlist
      the track it picks is a different file from the entry found for the
      current id. */
  lemma ShuffleAvoidsCurrent(p: Playlist, current: Track, draws: seq<nat>, i: nat)
    requires DistinctUrls(p.tracks)
    requires p.isShuffling && !p.isLooping
    requires IndexOfId(p.tracks, current.id) == Some(i)
    requires NextStep(p, Some(current), draws).Play?
    ensures NextStep(p, Some(current), draws).track.url != p.tracks[i].url
  {
    var k := FirstOtherDraw(draws, |p.tracks|, i).value;
    assert NextStep(p, Some(current), draws).track == p.tracks[k];
    if k < i {
      assert p.tracks[k].url != p.tracks[i].url;
    } else {
      assert p.tracks[i].url != p.tracks[k].url;
    }
  }

  /** With a single track, shuffle can never draw another index: the redraw
      loop does not stop, whatever the draws. */
  lemma SingleTrackShuffleSpins(p: Playlist, current: Track, draws: seq<nat>)
    requires |p.tracks| == 1 && p.tracks[0].id == current.id
    requires p.isShuffling && !p.isLooping
    ensures NextStep(p, Some(current), draws) == Spin
  {
    assert IndexOfId(p.tracks, current.id) == Some(0);
    forall k | 0 <= k < |draws| ensures draws[k] % 1 == 0 { }
  }

  /** With two or more tracks, some draw stops the redraw loop. */
  lemma ShuffleCanStop(p: Playlist, current: Track, i: nat)
    requires 2 <= |p.tracks| && p.isShuffling && !p.isLooping
    requires IndexOfId(p.tracks, current.id) == Some(i)
    ensures NextStep(p, Some(current), [NextIndex(i, |p.tracks|)]).Play?
  {
    var n := |p.tracks|;
    var d := NextIndex(i, n);
    assert d % n == d;
    assert FirstOtherDraw([d], n, i) == Some(d);
  }

  /** Sequential moves are inverse: when next goes from the current track to
      `t`, previous goes from `t` back to the current track's entry. */
  lemma {:induction false} PreviousUndoesNext(p: Playlist, current: Track, draws: seq<nat>, i: nat)
    requires DistinctIds(p.tracks)
    requires !p.isShuffling && !p.isLooping
    requires IndexOfId(p.tracks, current.id) == Some(i)
    ensures NextStep(p, Some(current), draws).Play?
    ensures PreviousStep(p, Some(NextStep(p, Some(current), draws).track)) == Some(p.tracks[i])
  {
    var n := |p.tracks|;
    var j := NextIndex(i, n);
    IndexOfIdFindsItself(p.tracks, j);
    NextPreviousInverse(i, n);
  }

  /** Sequential wrap-around on three tracks A, B, C: next from C is A and
      previous from A is C. */
  lemma ThreeTrackWrapAround(p: Playlist, a: Track, b: Track, c: Track, draws: seq<nat>)
    requires p.tracks == [a, b, c] && DistinctIds(p.tracks)
    requires !p.isShuffling && !p.isLooping
    ensures NextStep(p, Some(c), draws) == Play(a)
    ensures PreviousStep(p, Some(a)) == Some(c)
  {
    IndexOfIdFindsItself(p.tracks, 2);
    IndexOfIdFindsItself(p.tracks, 0);
  }
}
