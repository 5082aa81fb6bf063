/** The playback bar: the elapsed/total time caption and the shuffle and
    loop buttons, which flip a flag of the selected playlist (of the first
    playlist when none is selected). */
module PlaybackControls {
  import opened Common
  import opened TrackModel
  import opened PlaylistModel
  import opened Sequencing
  import opened ViewModel

  predicate IsDigit(c: char)
  {
    '0' <= c <= '9'
  }

  predicate AllDigits(s: string)
  {
    forall i :: 0 <= i < |s| ==> IsDigit(s[i])
  }

  function DigitChar(d: nat): (c: char)
    requires d < 10
    ensures IsDigit(c) && c as int - '0' as int == d
  {
    ('0' as int + d) as char
  }

  /** The number a string of decimal digits denotes. */
  function DigitsValue(s: string): (v: nat)
    requires AllDigits(s)
  {
    if s == [] then 0
    else DigitsValue(s[..|s| - 1]) * 10 + (s[|s| - 1] as int - '0' as int)
  }

  /** `%d` of a non-negative number: its decimal digits, no leading zero. */
  function Digits(n: nat): (r: string)
    ensures 1 <= |r| && AllDigits(r)
    ensures |r| == 1 <==> n < 10
    ensures n < 100 ==> |r| <= 2
    ensures n > 0 ==> r[0] != '0'
  {
    if n < 10 then [DigitChar(n)] else Digits(n / 10) + [DigitChar(n % 10)]
  }

  /** Reading the digits of `n` back gives `n`. */
  lemma {:induction false} DigitsRoundTrip(n: nat)
    ensures DigitsValue(Digits(n)) == n
  {
    if n >= 10 {
      DigitsRoundTrip(n / 10);
      var r := Digits(n);
      assert r[..|r| - 1] == Digits(n / 10);
    }
  }

  /** A leading zero does not change the value of a digit string. */
  lemma {:induction false} LeadingZero(s: string)
    requires AllDigits(s)
    ensures AllDigits("0" + s) && DigitsValue("0" + s) == DigitsValue(s)
  {
    if s != [] {
      LeadingZero(s[..|s| - 1]);
      assert ("0" + s)[..|"0" + s| - 1] == "0" + s[..|s| - 1];
    }
  }

  /** `%02d`: a non-negative number as at least two digits, zero-filled;
      a negative one as a minus sign and its magnitude's digits. */
  function Pad2(n: int): (r: string)
    ensures n >= 0 ==> 2 <= |r| && AllDigits(r) && DigitsValue(r) == n
    ensures 0 <= n < 100 ==> |r| == 2
    ensures n < 0 ==> 2 <= |r| && r[0] == '-' && AllDigits(r[1..]) && DigitsValue(r[1..]) == -n
  {
    if n < 0 then
      DigitsRoundTrip(-n);
      assert ("-" + Digits(-n))[1..] == Digits(-n);
      "-" + Digits(-n)
    else if n < 10 then
      DigitsRoundTrip(n);
      LeadingZero(Digits(n));
      "0" + Digits(n)
    else
      DigitsRoundTrip(n);
      Digits(n)
  }

  /** Swift's `Int(t)`: the integer part of `t`, rounding toward zero. */
  function TruncateToInt(t: real): (r: int)
    ensures 0.0 <= t ==> 0 <= r && r as real <= t < r as real + 1.0
    ensures t < 0.0 ==> r <= 0 && r as real - 1.0 < t <= r as real
  {
    if 0.0 <= t then t.Floor else -((-t).Floor)
  }

  /** Swift's integer `/`, which rounds toward zero. */
  function TruncDiv(a: int, d: nat): (q: int)
    requires d > 0
    ensures a >= 0 ==> q >= 0 && d * q <= a < d * q + d
    ensures a < 0 ==> q <= 0 && d * q - d < a <= d * q
  {
    if a >= 0 then a / d else -((-a) / d)
  }

  /** Swift's integer `%`: the remainder carries the sign of the dividend. */
  function TruncRem(a: int, d: nat): (m: int)
    requires d > 0
    ensures a == d * TruncDiv(a, d) + m
    ensures a >= 0 ==> 0 <= m < d
    ensures a < 0 ==> -(d as int) < m <= 0
  {
    a - d * TruncDiv(a, d)
  }

  /** `formatTime`: whole minutes and seconds, each through `%02d`,
      separated by a colon. Minutes are not folded into hours. */
  function FormatTime(time: real): (r: string)
    ensures 0.0 <= time ==>
              && 5 <= |r| && r[|r| - 3] == ':'
              && AllDigits(r[..|r| - 3]) && AllDigits(r[|r| - 2..])
    ensures 0.0 <= time < 6000.0 ==> |r| == 5
  {
    var whole := TruncateToInt(time);
    var minutes := Pad2(TruncDiv(whole, 60));
    var seconds := Pad2(TruncRem(whole, 60));
    var r := minutes + ":" + seconds;
    assert 0.0 <= time ==> r[..|r| - 3] == minutes && r[|r| - 2..] == seconds;
    r
  }

  /** Reads an "M…M:SS" caption back as a number of seconds. */
  function ParseClock(s: string): (r: Option<int>)
  {
    if 4 <= |s| && s[|s| - 3] == ':' && AllDigits(s[..|s| - 3]) && AllDigits(s[|s| - 2..])
    then Some(60 * DigitsValue(s[..|s| - 3]) + DigitsValue(s[|s| - 2..]))
    else None
  }

  /** For any non-negative time the caption reads back as its whole seconds:
      nothing is lost but the fraction. */
  lemma FormatTimeRoundTrip(time: real)
    requires 0.0 <= time
    ensures ParseClock(FormatTime(time)) == Some(TruncateToInt(time))
  {
    var whole := TruncateToInt(time);
    var q, m := TruncDiv(whole, 60), TruncRem(whole, 60);
    assert whole == 60 * q + m && 0 <= q && 0 <= m < 60;
    var minutes, seconds := Pad2(q), Pad2(m);
    assert DigitsValue(minutes) == q && DigitsValue(seconds) == m && |seconds| == 2;
    var r := minutes + ":" + seconds;
    assert r == FormatTime(time);
    assert r[..|r| - 3] == minutes && r[|r| - 2..] == seconds;
  }

  /** Two concrete captions: 75.9 s shows as 01:15, and an hour and two
      minutes as 62:05. */
  lemma FormatTimeExamples()
    ensures FormatTime(75.9) == "01:15"
    ensures FormatTime(3725.0) == "62:05"
  {
    assert TruncateToInt(75.9) == 75;
    assert Digits(15) == "15";
    assert TruncateToInt(3725.0) == 3725;
    assert Digits(62) == "62";
  }

  /** The playlist the shuffle and loop buttons act on: the selected one, or
      the first when none is selected (`selectedPlaylistIndex ?? 0`). */
  function ButtonTarget(selected: Option<nat>): (i: nat)
    ensures selected.Some? ==> i == selected.value
    ensures selected.None? ==> i == 0
  {
    if selected.Some? then selected.value else 0
  }

  /** The shuffle button: flips `isShuffling` of the target playlist and
      changes nothing else. */
  method ToggleShuffle(vm: MusicPlayerViewModel)
    requires vm.Valid()
    modifies vm
    ensures vm.Valid()
    ensures var i := ButtonTarget(old(vm.selectedPlaylistIndex));
            vm.playlists ==
            old(vm.playlists)[i := old(vm.playlists)[i].(isShuffling := !old(vm.playlists)[i].isShuffling)]
    ensures vm.selectedPlaylistIndex == old(vm.selectedPlaylistIndex)
    ensures vm.currentTrack == old(vm.currentTrack) && vm.isPlaying == old(vm.isPlaying)
    ensures vm.hasPlayer == old(vm.hasPlayer) && vm.duration == old(vm.duration)
    ensures vm.currentTime == old(vm.currentTime)
  {
    var i := ButtonTarget(vm.selectedPlaylistIndex);
    vm.playlists := vm.playlists[i := vm.playlists[i].(isShuffling := !vm.playlists[i].isShuffling)];
  }

  /** The loop button: flips `isLooping` of the target playlist and changes
      nothing else. */
  method ToggleLoop(vm: MusicPlayerViewModel)
    requires vm.Valid()
    modifies vm
    ensures vm.Valid()
    ensures var i := ButtonTarget(old(vm.selectedPlaylistIndex));
            vm.playlists ==
            old(vm.playlists)[i := old(vm.playlists)[i].(isLooping := !old(vm.playlists)[i].isLooping)]
    ensures vm.selectedPlaylistIndex == old(vm.selectedPlaylistIndex)
    ensures vm.currentTrack == old(vm.currentTrack) && vm.isPlaying == old(vm.isPlaying)
    ensures vm.hasPlayer == old(vm.hasPlayer) && vm.duration == old(vm.duration)
    ensures vm.currentTime == old(vm.currentTime)
  {
    var i := ButtonTarget(vm.selectedPlaylistIndex);
    vm.playlists := vm.playlists[i := vm.playlists[i].(isLooping := !vm.playlists[i].isLooping)];
  }

  /** Turning loop on for the selected playlist makes next replay the
      current track, whatever the shuffle flag and the draws. */
  lemma LoopOnReplays(p: Playlist, current: Track, draws: seq<nat>)
    requires !p.isLooping
    ensures NextStep(p.(isLooping := !p.isLooping), Some(current), draws) == Play(current)
  {
  }
}
