/** `MusicPlayer`: the playlist and its cyclic cursor, volume and seek clamps,
    the audio-file filter of loadFiles and the clock rendering of formatTime.
    The `<audio>` element is abstract: the player's requests to it are
    recorded, in order, in the ghost log `audio`; `isPlaying` and `duration`
    are written by the element's listeners and are read here, never set. */
module Player {
  import opened Common

  // ---------------------------------------------------------------------------
  // Files and tracks

  /** A selected file: its name and MIME type. */
  datatype AudioFile = AudioFile(name: string, mimeType: string)

  datatype Track = Track(file: AudioFile, name: string, artist: string)

  predicate IsAudioType(mimeType: string)
  {
    |mimeType| >= 6 && mimeType[..6] == "audio/"
  }

  predicate NoDotOrSlash(s: string)
  {
    forall i :: 0 <= i < |s| ==> s[i] != '.' && s[i] != '/'
  }

  /** The position of the last '.' in a string. */
  function LastDot(s: string): (r: Option<nat>)
    ensures r.None? ==> forall i :: 0 <= i < |s| ==> s[i] != '.'
    ensures r.Some? ==> r.value < |s| && s[r.value] == '.' && forall i :: r.value < i < |s| ==> s[i] != '.'
  {
    if s == [] then None
    else if s[|s| - 1] == '.' then Some(|s| - 1)
    else LastDot(s[..|s| - 1])
  }

  lemma LastDotUnique(s: string, p: nat)
    requires p < |s| && s[p] == '.'
    requires forall i :: p < i < |s| ==> s[i] != '.'
    ensures LastDot(s) == Some(p)
  {
  }

  /** `name.replace(/\.[^/.]+$/, "")`: drops a final extension, a '.'
      followed by at least one character that is neither '.' nor '/'. */
  function StripExtension(name: string): string
  {
    match LastDot(name)
    case None => name
    case Some(p) => if p + 1 < |name| && NoDotOrSlash(name[p + 1..]) then name[..p] else name
  }

  /** What StripExtension removes is exactly one extension: either nothing,
      or a '.' and a non-empty tail without '.' or '/'. */
  lemma StripExtensionRemovesExtension(name: string)
    ensures var base := StripExtension(name);
      || base == name
      || (|base| + 1 < |name| && name == base + "." + name[|base| + 1..] && NoDotOrSlash(name[|base| + 1..]))
  {
  }

  /** The inverse direction: a base name with one extension appended gets
      exactly that base back. */
  lemma StripExtensionOfExtended(base: string, ext: string)
    requires ext != [] && NoDotOrSlash(ext)
    ensures StripExtension(base + "." + ext) == base
  {
    var s := base + "." + ext;
    LastDotUnique(s, |base|);
    assert s[|base| + 1..] == ext;
    assert s[..|base|] == base;
  }

  /** A name without any '.' is kept whole. */
  lemma StripExtensionNoDot(name: string)
    requires forall i :: 0 <= i < |name| ==> name[i] != '.'
    ensures StripExtension(name) == name
  {
  }

  function MakeTrack(file: AudioFile): Track
  {
    Track(file, StripExtension(file.name), "Unknown Artist")
  }

  /** The playlist loadFiles builds: the audio files, in order, as tracks. */
  function AudioTracks(files: seq<AudioFile>): seq<Track>
  {
    if files == [] then []
    else
      var last := files[|files| - 1];
      AudioTracks(files[..|files| - 1]) + (if IsAudioType(last.mimeType) then [MakeTrack(last)] else [])
  }

  /** The number of audio files among `files`. */
  function AudioCount(files: seq<AudioFile>): nat
  {
    if files == [] then 0
    else AudioCount(files[..|files| - 1]) + (if IsAudioType(files[|files| - 1].mimeType) then 1 else 0)
  }

  /** The playlist keeps input order across any split of the file list. */
  lemma {:induction false} AudioTracksAppend(a: seq<AudioFile>, b: seq<AudioFile>)
    ensures AudioTracks(a + b) == AudioTracks(a) + AudioTracks(b)
  {
    if b != [] {
      assert (a + b)[..|a + b| - 1] == a + b[..|b| - 1];
      AudioTracksAppend(a, b[..|b| - 1]);
    } else {
      assert a + b == a;
    }
  }

  /** Exactly the audio files become tracks, each named by its file name
      without extension and credited to "Unknown Artist". */
  lemma {:induction false} AudioTracksSpec(files: seq<AudioFile>)
    ensures |AudioTracks(files)| == AudioCount(files) <= |files|
    ensures forall t :: t in AudioTracks(files) ==>
              t.file in files && IsAudioType(t.file.mimeType) && t == MakeTrack(t.file)
    ensures forall f :: f in files && IsAudioType(f.mimeType) ==> MakeTrack(f) in AudioTracks(files)
  {
    if files != [] {
      var init := files[..|files| - 1];
      AudioTracksSpec(init);
      assert forall f :: f in init ==> f in files;
      assert forall f :: f in files ==> f in init || f == files[|files| - 1];
    }
  }

  // ---------------------------------------------------------------------------
  // The cursor

  function NextIndex(i: int, n: int): int
    requires n > 0
  {
    (i + 1) % n
  }

  function PrevIndex(i: int, n: int): int
    requires n > 0
  {
    if i == 0 then n - 1 else i - 1
  }

  /** next wraps from the last entry back to the first and otherwise moves on by one. */
  lemma NextIndexWraps(i: int, n: int)
    requires 0 <= i < n
    ensures NextIndex(i, n) == if i + 1 < n then i + 1 else 0
  {
    if i + 1 < n {
      assert i + 1 == 0 * n + (i + 1);
    } else {
      assert i + 1 == 1 * n + 0;
    }
  }

  /** next and previous keep the cursor inside the playlist and undo each other. */
  lemma CursorSteps(i: int, n: int)
    requires 0 <= i < n
    ensures 0 <= NextIndex(i, n) < n && 0 <= PrevIndex(i, n) < n
    ensures PrevIndex(NextIndex(i, n), n) == i
    ensures NextIndex(PrevIndex(i, n), n) == i
  {
    NextIndexWraps(i, n);
    NextIndexWraps(PrevIndex(i, n), n);
  }

  function NextTimes(i: int, n: int, k: nat): int
    requires n > 0
  {
    if k == 0 then i else NextIndex(NextTimes(i, n, k - 1), n)
  }

  /** k presses of next advance the cursor by k around the playlist, so n
      presses come back to the start. */
  lemma {:induction false} NextTimesCycles(i: int, n: int, k: nat)
    requires 0 <= i < n && k <= n
    ensures NextTimes(i, n, k) == if i + k < n then i + k else i + k - n
  {
    if k > 0 {
      NextTimesCycles(i, n, k - 1);
      NextIndexWraps(NextTimes(i, n, k - 1), n);
    }
  }

  // ---------------------------------------------------------------------------
  // Volume steps

  function VolumeUpLevel(v: real): real
  {
    Min(1.0, v + 0.1)
  }

  function VolumeDownLevel(v: real): real
  {
    Max(0.0, v - 0.1)
  }

  /** Volume steps stay in range and undo each other away from the ends. */
  lemma VolumeStepsInverse(v: real)
    requires 0.0 <= v <= 1.0
    ensures 0.0 <= VolumeUpLevel(v) <= 1.0 && 0.0 <= VolumeDownLevel(v) <= 1.0
    ensures v <= 0.9 ==> VolumeDownLevel(VolumeUpLevel(v)) == v
    ensures v >= 0.1 ==> VolumeUpLevel(VolumeDownLevel(v)) == v
  {
  }

  function VolumeUpTimes(v: real, k: nat): real
  {
    if k == 0 then v else VolumeUpLevel(VolumeUpTimes(v, k - 1))
  }

  /** k volume-up steps add 0.1 each until the volume saturates at 1, so ten
      of them always reach full volume. */
  lemma {:induction false} VolumeUpTimesSaturates(v: real, k: nat)
    requires 0.0 <= v <= 1.0
    ensures VolumeUpTimes(v, k) == Min(1.0, v + 0.1 * k as real)
  {
    if k > 0 {
      VolumeUpTimesSaturates(v, k - 1);
    }
  }

  // ---------------------------------------------------------------------------
  // formatTime

  /** A JavaScript number that formatTime may receive: NaN or a finite value. */
  datatype Seconds = NaN | Finite(value: real)

  /** JavaScript's `%`: the remainder takes the sign of the dividend. */
  function JsRemainder(x: real, m: real): real
    requires m != 0.0
  {
    x - m * Trunc(x / m) as real
  }

  /** `s.padStart(2, '0')`. */
  function PadStart2(s: string): (r: string)
    ensures |r| == if |s| >= 2 then |s| else 2
  {
    if |s| >= 2 then s else seq(2 - |s|, _ => '0') + s
  }

  function FormatTime(seconds: Seconds): string
  {
    match seconds
    case NaN => "0:00"
    case Finite(s) =>
      var minutes := (s / 60.0).Floor;
      var secs := JsRemainder(s, 60.0).Floor;
      IntToString(minutes) + ":" + PadStart2(IntToString(secs))
  }

  /** Reads an "m:ss" clock back as a number of seconds. */
  function ParseClock(r: string): Option<nat>
  {
    if |r| >= 4 && r[|r| - 3] == ':' && AllDigits(r[..|r| - 3]) && AllDigits(r[|r| - 2..])
    then Some(60 * ParseNat(r[..|r| - 3]) + ParseNat(r[|r| - 2..]))
    else None
  }

  lemma TwoDigits(k: nat)
    requires k < 60
    ensures PadStart2(NatToString(k)) == [DigitChar(k / 10), DigitChar(k % 10)]
    ensures ParseNat([DigitChar(k / 10), DigitChar(k % 10)]) == k
  {
    if k >= 10 {
      assert NatToString(k) == NatToString(k / 10) + [DigitChar(k % 10)];
    }
    var two := [DigitChar(k / 10), DigitChar(k % 10)];
    assert two[..1] == [DigitChar(k / 10)];
    assert [DigitChar(k / 10)][..0] == [];
    assert DigitChar(k / 10) as int - '0' as int == k / 10;
    assert DigitChar(k % 10) as int - '0' as int == k % 10;
    assert ParseNat(two[..1]) == k / 10;
  }

  /** For a non-negative time both of formatTime's floors split the whole
      seconds into minutes and seconds. */
  lemma FormatTimeParts(s: real)
    requires s >= 0.0
    ensures (s / 60.0).Floor == s.Floor / 60
    ensures JsRemainder(s, 60.0).Floor == s.Floor % 60
  {
    var total := s.Floor;
    var q := (s / 60.0).Floor;
    assert Trunc(s / 60.0) == q;
    assert 60 * q <= total < 60 * q + 60;
    var k := total - 60 * q;
    assert total / 60 == q && total % 60 == k;
    FloorUnique(JsRemainder(s, 60.0), k);
  }

  /** A clock of whole minutes, a colon and two seconds digits reads back as
      the number of seconds it shows. */
  lemma ClockReadsBack(q: nat, k: nat)
    requires k < 60
    ensures ParseClock(NatToString(q) + ":" + [DigitChar(k / 10), DigitChar(k % 10)]) == Some(60 * q + k)
  {
    var mins := NatToString(q);
    var two := [DigitChar(k / 10), DigitChar(k % 10)];
    var r := mins + ":" + two;
    assert r[..|r| - 3] == mins && r[|r| - 2..] == two && r[|r| - 3] == ':';
    assert AllDigits(two) by {
      assert IsDigit(DigitChar(k / 10)) && IsDigit(DigitChar(k % 10));
    }
    assert ParseNat(two) == k by {
      TwoDigits(k);
    }
    assert ParseNat(mins) == q by {
      ParseNatToString(q);
    }
  }

  /** For a non-negative time, formatTime writes whole minutes, a colon and
      two zero-padded digits of the remaining seconds, which read back as the
      whole number of seconds. */
  lemma FormatTimeNonNegative(s: real)
    requires s >= 0.0
    ensures var total := s.Floor;
      FormatTime(Finite(s)) == NatToString(total / 60) + ":" + [DigitChar(total % 60 / 10), DigitChar(total % 60 % 10)]
    ensures ParseClock(FormatTime(Finite(s))) == Some(s.Floor)
  {
    var total := s.Floor;
    FormatTimeParts(s);
    var q, k := total / 60, total % 60;
    TwoDigits(k);
    ClockReadsBack(q, k);
  }

  /** NaN renders as "0:00", which reads back as zero seconds. */
  lemma FormatTimeNaN()
    ensures FormatTime(NaN) == "0:00" && ParseClock(FormatTime(NaN)) == Some(0)
  {
    var zero := "0:00";
    assert zero[..1] == "0" && zero[2..] == "00";
    assert "0"[..0] == [] && "00"[..1] == "0";
    assert ParseNat("0") == 0;
    assert ParseNat("00") == 0;
  }

  /** JavaScript's truncating `%` shows in negative times: minus five
      seconds is rendered "-1:-5". */
  lemma FormatTimeNegative()
    ensures FormatTime(Finite(-5.0)) == "-1:-5"
  {
    assert (-5.0 / 60.0).Floor == -1;
    assert Trunc(-5.0 / 60.0) == 0;
    assert JsRemainder(-5.0, 60.0).Floor == -5;
    assert NatToString(1) == "1" && NatToString(5) == "5";
  }

  // ---------------------------------------------------------------------------
  // The player

  /** A request the player makes of the `<audio>` element: a new source
      (which also raises the track-change callback), `play()`, `pause()`,
      a new `currentTime` or a new `volume`. */
  datatype AudioCommand = LoadSource(track: Track) | PlayRequest | PauseRequest | SetPosition(time: real) | SetVolumeTo(level: real)

  class MusicPlayer {
    var playlist: seq<Track>
    var currentTrackIndex: int
    var isPlaying: bool
    var duration: real
    var volume: real

    /** Every request made of the audio element, oldest first. */
    ghost var audio: seq<AudioCommand>

    ghost predicate Valid()
      reads this
    {
      && 0 <= currentTrackIndex
      && (playlist != [] ==> currentTrackIndex < |playlist|)
      && 0.0 <= volume <= 1.0
      && duration >= 0.0
    }

    /** The constructor; its updateUI applies the initial volume. */
    constructor ()
      ensures Valid()
      ensures playlist == [] && currentTrackIndex == 0 && !isPlaying && duration == 0.0 && volume == 0.5
      ensures audio == [SetVolumeTo(0.5)]
    {
      playlist := [];
      currentTrackIndex := 0;
      isPlaying := false;
      duration := 0.0;
      volume := 0.5;
      audio := [SetVolumeTo(0.5)];
    }

    /** getCurrentTrack: `playlist[currentTrackIndex] || null`. */
    function GetCurrentTrack(): (r: Option<Track>)
      reads this
      ensures r.Some? <==> 0 <= currentTrackIndex < |playlist|
      ensures r.Some? ==> r.value == playlist[currentTrackIndex]
      ensures Valid() ==> (r.Some? <==> playlist != [])
    {
      if 0 <= currentTrackIndex < |playlist| then Some(playlist[currentTrackIndex]) else None
    }

    method LoadFiles(files: seq<AudioFile>)
      requires Valid()
      modifies this`playlist, this`currentTrackIndex, this`audio
      ensures Valid()
      ensures playlist == AudioTracks(files)
      ensures playlist != [] ==> currentTrackIndex == 0 && audio == old(audio) + [LoadSource(playlist[0])]
      ensures playlist == [] ==> currentTrackIndex == old(currentTrackIndex) && audio == old(audio)
    {
      playlist := [];
      for i := 0 to |files|
        invariant playlist == AudioTracks(files[..i])
        invariant currentTrackIndex == old(currentTrackIndex) && audio == old(audio)
      {
        assert files[..i + 1][..i] == files[..i];
        var file := files[i];
        if IsAudioType(file.mimeType) {
          var track := Track(file, StripExtension(file.name), "Unknown Artist");
          playlist := playlist + [track];
        }
      }
      assert files[..|files|] == files;
      if |playlist| > 0 {
        currentTrackIndex := 0;
        LoadTrack(currentTrackIndex);
      }
    }

    /** loadTrack: an index outside the playlist is ignored. */
    method LoadTrack(index: int)
      modifies this`currentTrackIndex, this`audio
      ensures 0 <= index < |playlist| ==> currentTrackIndex == index && audio == old(audio) + [LoadSource(playlist[index])]
      ensures !(0 <= index < |playlist|) ==> currentTrackIndex == old(currentTrackIndex) && audio == old(audio)
    {
      if 0 <= index < |playlist| {
        var track := playlist[index];
        audio := audio + [LoadSource(track)];
        currentTrackIndex := index;
      }
    }

    method Play()
      modifies this`audio
      ensures audio == old(audio) + if playlist != [] then [PlayRequest] else []
    {
      if |playlist| > 0 {
        audio := audio + [PlayRequest];
      }
    }

    method Pause()
      modifies this`audio
      ensures audio == old(audio) + [PauseRequest]
    {
      audio := audio + [PauseRequest];
    }

    method TogglePlayPause()
      modifies this`audio
      ensures audio == old(audio) + if isPlaying then [PauseRequest] else if playlist != [] then [PlayRequest] else []
    {
      if isPlaying {
        Pause();
      } else {
        Play();
      }
    }

    /** stop: pause and rewind. */
    method Stop()
      modifies this`audio
      ensures audio == old(audio) + [PauseRequest, SetPosition(0.0)]
    {
      audio := audio + [PauseRequest];
      audio := audio + [SetPosition(0.0)];
    }

    method Next()
      requires Valid()
      modifies this`currentTrackIndex, this`audio
      ensures Valid()
      ensures playlist == [] ==> currentTrackIndex == old(currentTrackIndex) && audio == old(audio)
      ensures playlist != [] ==>
        && currentTrackIndex == NextIndex(old(currentTrackIndex), |playlist|)
        && audio == old(audio) + [LoadSource(playlist[currentTrackIndex])] + (if isPlaying then [PlayRequest] else [])
    {
      if |playlist| > 0 {
        currentTrackIndex := (currentTrackIndex + 1) % |playlist|;
        LoadTrack(currentTrackIndex);
        if isPlaying {
          Play();
        }
      }
    }

    method Previous()
      requires Valid()
      modifies this`currentTrackIndex, this`audio
      ensures Valid()
      ensures playlist == [] ==> currentTrackIndex == old(currentTrackIndex) && audio == old(audio)
      ensures playlist != [] ==>
        && currentTrackIndex == PrevIndex(old(currentTrackIndex), |playlist|)
        && audio == old(audio) + [LoadSource(playlist[currentTrackIndex])] + (if isPlaying then [PlayRequest] else [])
    {
      if |playlist| > 0 {
        currentTrackIndex := if currentTrackIndex == 0 then |playlist| - 1 else currentTrackIndex - 1;
        LoadTrack(currentTrackIndex);
        if isPlaying {
          Play();
        }
      }
    }

    /** seek: the position is clamped to [0, duration]. */
    method Seek(time: real)
      requires Valid()
      modifies this`audio
      ensures audio == old(audio) + [SetPosition(Clamp(time, 0.0, duration))]
      ensures 0.0 <= Clamp(time, 0.0, duration) <= duration
    {
      audio := audio + [SetPosition(Max(0.0, Min(time, duration)))];
    }

    method SetVolume(level: real)
      requires Valid()
      modifies this`volume, this`audio
      ensures Valid()
      ensures volume == Clamp(level, 0.0, 1.0)
      ensures audio == old(audio) + [SetVolumeTo(volume)]
    {
      volume := Max(0.0, Min(1.0, level));
      audio := audio + [SetVolumeTo(volume)];
    }

    method GestureVolumeUp()
      requires Valid()
      modifies this`volume, this`audio
      ensures Valid()
      ensures volume == VolumeUpLevel(old(volume))
      ensures audio == old(audio) + [SetVolumeTo(volume)]
    {
      var newVolume := Min(1.0, volume + 0.1);
      SetVolume(newVolume);
    }

    method GestureVolumeDown()
      requires Valid()
      modifies this`volume, this`audio
      ensures Valid()
      ensures volume == VolumeDownLevel(old(volume))
      ensures audio == old(audio) + [SetVolumeTo(volume)]
    {
      var newVolume := Max(0.0, volume - 0.1);
      SetVolume(newVolume);
    }
  }
}
