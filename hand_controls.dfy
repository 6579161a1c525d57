/** The continuous controls `MediaPipeHandler` derives from the right hand:
    volume from the wrist height, openness from the wrist-to-fingertip
    distances, and a pitch (frequency and note name) from the openness.
    `Math.sqrt` is a parameter `sqrt`, and the rounded base-2 logarithm that
    names a note is a caller-supplied semitone index. */
module HandControls {
  import opened Common
  import opened Hands

  // ---------------------------------------------------------------------------
  // The right hand

  /** `handsInfo.find(hand => hand.isRight)`: the first hand labelled "Right". */
  function FirstRight(hands: seq<Hand>): (r: Option<Hand>)
    ensures r.None? <==> forall i :: 0 <= i < |hands| ==> !IsRight(hands[i])
    ensures r.Some? ==> exists i :: 0 <= i < |hands| && hands[i] == r.value && IsRight(hands[i])
                                    && forall j :: 0 <= j < i ==> !IsRight(hands[j])
  {
    if hands == [] then None
    else if IsRight(hands[0]) then Some(hands[0])
    else
      var r := FirstRight(hands[1..]);
      assert forall j :: 1 <= j < |hands| ==> hands[j] == hands[1..][j - 1];
      r
  }

  // ---------------------------------------------------------------------------
  // Volume

  /** The wrist height mapped linearly from [0.1, 0.9] (top to bottom) onto
      [1, 0], clamped, and rounded to hundredths. */
  function VolumeAt(wristY: real): real
  {
    RoundHundredths(Clamp((0.9 - wristY) / 0.8, 0.0, 1.0))
  }

  /** calculateVolume over the last frame's hands: 0 without a right hand; a
      right hand without landmarks has no wrist, and reading its `y` throws. */
  function CalculateVolume(hands: seq<Hand>): Result<real>
  {
    match FirstRight(hands)
    case None => Ok(0.0)
    case Some(h) => if h.landmarks == [] then TypeError else Ok(VolumeAt(h.landmarks[0].y))
  }

  lemma VolumeAtBounds(wristY: real)
    ensures 0.0 <= VolumeAt(wristY) <= 1.0
  {
    RoundHundredthsBounds(Clamp((0.9 - wristY) / 0.8, 0.0, 1.0), 0, 100);
  }

  /** Raising the hand never lowers the volume. */
  lemma VolumeAtMonotone(y1: real, y2: real)
    requires y1 <= y2
    ensures VolumeAt(y2) <= VolumeAt(y1)
  {
    ClampMonotone((0.9 - y2) / 0.8, (0.9 - y1) / 0.8, 0.0, 1.0);
    RoundHundredthsMonotone(Clamp((0.9 - y2) / 0.8, 0.0, 1.0), Clamp((0.9 - y1) / 0.8, 0.0, 1.0));
  }

  /** The ends and the middle of the control range. */
  lemma VolumeAtLandmarks(wristY: real)
    ensures wristY <= 0.1 ==> VolumeAt(wristY) == 1.0
    ensures wristY >= 0.9 ==> VolumeAt(wristY) == 0.0
    ensures wristY == 0.5 ==> VolumeAt(wristY) == 0.5
  {
    FloorUnique(100.5, 100);
    FloorUnique(0.5, 0);
    FloorUnique(50.5, 50);
  }

  lemma CalculateVolumeSpec(hands: seq<Hand>)
    ensures (forall i :: 0 <= i < |hands| ==> !IsRight(hands[i])) ==> CalculateVolume(hands) == Ok(0.0)
    ensures CalculateVolume(hands).TypeError? <==> FirstRight(hands).Some? && FirstRight(hands).value.landmarks == []
    ensures CalculateVolume(hands).Ok? ==> 0.0 <= CalculateVolume(hands).value <= 1.0
    ensures FirstRight(hands).Some? && FirstRight(hands).value.landmarks != [] ==>
              CalculateVolume(hands) == Ok(VolumeAt(FirstRight(hands).value.landmarks[0].y))
  {
    if FirstRight(hands).Some? && FirstRight(hands).value.landmarks != [] {
      VolumeAtBounds(FirstRight(hands).value.landmarks[0].y);
    }
  }

  // ---------------------------------------------------------------------------
  // Openness

  /** calculateDistance3D. */
  function Distance3D(p: Point, q: Point, sqrt: real -> real): real
  {
    var dx := p.x - q.x;
    var dy := p.y - q.y;
    var dz := p.z - q.z;
    sqrt(dx * dx + dy * dy + dz * dz)
  }

  /** The distance from the wrist (landmark 0) to the tip of the i-th finger,
      counting the thumb as 1 (tips are landmarks 4, 8, 12, 16, 20). */
  function TipDistance(lms: seq<Point>, i: nat, sqrt: real -> real): real
    requires 1 <= i <= 5 && |lms| >= 21
  {
    Distance3D(lms[0], lms[4 * i], sqrt)
  }

  /** The sum of the first k wrist-to-tip distances. */
  function TipDistanceSum(lms: seq<Point>, k: nat, sqrt: real -> real): real
    requires k <= 5 && |lms| >= 21
  {
    if k == 0 then 0.0 else TipDistanceSum(lms, k - 1, sqrt) + TipDistance(lms, k, sqrt)
  }

  /** The openness calculateHandOpenness computes: 0 for fewer than 21
      landmarks, else the mean wrist-to-tip distance mapped from [0.1, 0.3]
      onto [0, 1] and clamped. */
  function Openness(lms: seq<Point>, sqrt: real -> real): (r: real)
    ensures 0.0 <= r <= 1.0
    ensures |lms| < 21 ==> r == 0.0
  {
    if |lms| < 21 then 0.0
    else Clamp((TipDistanceSum(lms, 5, sqrt) / 5.0 - 0.1) / 0.2, 0.0, 1.0)
  }

  method CalculateHandOpenness(landmarks: seq<Point>, sqrt: real -> real) returns (openness: real)
    ensures openness == Openness(landmarks, sqrt)
  {
    if |landmarks| < 21 {
      return 0.0;
    }
    var fingerTips := [landmarks[4], landmarks[8], landmarks[12], landmarks[16], landmarks[20]];
    var palm := landmarks[0];
    var totalDistance := 0.0;
    var i := 0;
    while i < |fingerTips|
      invariant 0 <= i <= |fingerTips|
      invariant totalDistance == TipDistanceSum(landmarks, i, sqrt)
    {
      totalDistance := totalDistance + Distance3D(palm, fingerTips[i], sqrt);
      i := i + 1;
    }
    var averageDistance := totalDistance / |fingerTips| as real;
    openness := (averageDistance - 0.1) / (0.3 - 0.1);
    openness := Max(0.0, Min(1.0, openness));
  }

  lemma {:induction false} TipDistanceSumMonotone(l1: seq<Point>, l2: seq<Point>, k: nat, sqrt: real -> real)
    requires k <= 5 && |l1| >= 21 && |l2| >= 21
    requires forall i :: 1 <= i <= k ==> TipDistance(l1, i, sqrt) <= TipDistance(l2, i, sqrt)
    ensures TipDistanceSum(l1, k, sqrt) <= TipDistanceSum(l2, k, sqrt)
  {
    if k > 0 {
      TipDistanceSumMonotone(l1, l2, k - 1, sqrt);
    }
  }

  /** A hand whose every fingertip is at least as far from the wrist as
      another's is at least as open. */
  lemma OpennessMonotone(l1: seq<Point>, l2: seq<Point>, sqrt: real -> real)
    requires |l1| >= 21 && |l2| >= 21
    requires forall i :: 1 <= i <= 5 ==> TipDistance(l1, i, sqrt) <= TipDistance(l2, i, sqrt)
    ensures Openness(l1, sqrt) <= Openness(l2, sqrt)
  {
    TipDistanceSumMonotone(l1, l2, 5, sqrt);
    ClampMonotone((TipDistanceSum(l1, 5, sqrt) / 5.0 - 0.1) / 0.2, (TipDistanceSum(l2, 5, sqrt) / 5.0 - 0.1) / 0.2, 0.0, 1.0);
  }

  lemma {:induction false} TipDistanceSumAtLeast(lms: seq<Point>, k: nat, lo: real, sqrt: real -> real)
    requires k <= 5 && |lms| >= 21
    requires forall i :: 1 <= i <= k ==> lo <= TipDistance(lms, i, sqrt)
    ensures k as real * lo <= TipDistanceSum(lms, k, sqrt)
  {
    if k > 0 {
      TipDistanceSumAtLeast(lms, k - 1, lo, sqrt);
    }
  }

  lemma {:induction false} TipDistanceSumAtMost(lms: seq<Point>, k: nat, hi: real, sqrt: real -> real)
    requires k <= 5 && |lms| >= 21
    requires forall i :: 1 <= i <= k ==> TipDistance(lms, i, sqrt) <= hi
    ensures TipDistanceSum(lms, k, sqrt) <= k as real * hi
  {
    if k > 0 {
      TipDistanceSumAtMost(lms, k - 1, hi, sqrt);
    }
  }

  /** Every fingertip at least 0.3 from the wrist is a fully open hand; every
      fingertip within 0.1 a fully closed one. */
  lemma OpennessSaturates(lms: seq<Point>, sqrt: real -> real)
    requires |lms| >= 21
    ensures (forall i :: 1 <= i <= 5 ==> TipDistance(lms, i, sqrt) >= 0.3) ==> Openness(lms, sqrt) == 1.0
    ensures (forall i :: 1 <= i <= 5 ==> TipDistance(lms, i, sqrt) <= 0.1) ==> Openness(lms, sqrt) == 0.0
  {
    if forall i :: 1 <= i <= 5 ==> TipDistance(lms, i, sqrt) >= 0.3 {
      TipDistanceSumAtLeast(lms, 5, 0.3, sqrt);
    }
    if forall i :: 1 <= i <= 5 ==> TipDistance(lms, i, sqrt) <= 0.1 {
      TipDistanceSumAtMost(lms, 5, 0.1, sqrt);
    }
  }

  // ---------------------------------------------------------------------------
  // Note names

  /** `A4 * 2^(-4.75)` with A4 = 440 Hz. */
  const C0: real := 16.351597831287414

  const NoteNames: seq<string> := ["C", "C#", "D", "D#", "E", "F", "F#", "G", "G#", "A", "A#", "B"]

  /** The note `h` semitones above C0: pitch class and octave number. */
  function NoteName(h: nat): (s: string)
    ensures |s| >= 2
  {
    NoteNames[h % 12] + NatToString(h / 12)
  }

  /** frequencyToNote, given `h = round(12 * log2(frequency / C0))`, which is
      never negative when the frequency lies above C0. */
  function FrequencyToNote(frequency: real, h: nat): string
  {
    if frequency > C0 then NoteName(h) else "C4"
  }

  function PitchClassIndex(p: string): (r: Option<nat>)
    ensures r.Some? ==> r.value < 12 && NoteNames[r.value] == p
  {
    if p == "C" then Some(0) else if p == "C#" then Some(1)
    else if p == "D" then Some(2) else if p == "D#" then Some(3)
    else if p == "E" then Some(4) else if p == "F" then Some(5)
    else if p == "F#" then Some(6) else if p == "G" then Some(7)
    else if p == "G#" then Some(8) else if p == "A" then Some(9)
    else if p == "A#" then Some(10) else if p == "B" then Some(11)
    else None
  }

  /** Reads back the semitone index from a note name; the inverse of NoteName. */
  function ParseNoteName(s: string): Option<nat>
  {
    var split := if |s| >= 2 && s[1] == '#' then 2 else 1;
    if |s| <= split || !AllDigits(s[split..]) then None
    else
      match PitchClassIndex(s[..split])
      case None => None
      case Some(pc) => Some(12 * ParseNat(s[split..]) + pc)
  }

  lemma PitchClassIndexOfName(pc: nat)
    requires pc < 12
    ensures PitchClassIndex(NoteNames[pc]) == Some(pc)
  {
  }

  /** Every note name reads back as the semitone index it was made from, so
      distinct indices give distinct names. */
  lemma NoteNameRoundTrip(h: nat)
    ensures ParseNoteName(NoteName(h)) == Some(h)
  {
    var pc, octave := h % 12, h / 12;
    var name, digits := NoteNames[pc], NatToString(octave);
    var s := name + digits;
    PitchClassIndexOfName(pc);
    ParseNatToString(octave);
    if |name| == 2 {
      assert s[1] == '#';
      assert s[..2] == name && s[2..] == digits;
    } else {
      assert |name| == 1;
      assert s[1] == digits[0] && IsDigit(digits[0]);
      assert s[..1] == name && s[1..] == digits;
    }
  }

  lemma NoteNameInjective(h1: nat, h2: nat)
    requires NoteName(h1) == NoteName(h2)
    ensures h1 == h2
  {
    NoteNameRoundTrip(h1);
    NoteNameRoundTrip(h2);
  }

  /** The pitch class of a note name is one of the twelve, chosen by h mod 12,
      and its octave is h div 12; at or below C0 the answer is always "C4". */
  lemma FrequencyToNoteSpec(frequency: real, h: nat)
    ensures frequency <= C0 ==> FrequencyToNote(frequency, h) == "C4"
    ensures frequency > C0 ==> exists pc :: 0 <= pc < 12 && FrequencyToNote(frequency, h) == NoteNames[pc] + NatToString(h / 12) && pc == h % 12
    ensures ParseNoteName(FrequencyToNote(frequency, h)) == Some(if frequency > C0 then h else 48)
  {
    NoteNameRoundTrip(h);
    NoteNameRoundTrip(48);
    assert NoteName(48) == "C4";
  }

  // ---------------------------------------------------------------------------
  // Pitch

  /** The object calculatePitch returns; the fallback has no `openness`. */
  datatype Pitch = Pitch(note: string, frequency: real, openness: Option<real>)

  const DefaultPitch: Pitch := Pitch("C4", 261.63, None)

  /** calculatePitch: the right hand's openness mapped onto [200, 1200] Hz. */
  function CalculatePitch(hands: seq<Hand>, sqrt: real -> real, semitoneIndex: real -> nat): Pitch
  {
    match FirstRight(hands)
    case None => DefaultPitch
    case Some(h) =>
      var openness := Openness(h.landmarks, sqrt);
      var frequency := 200.0 + openness * (1200.0 - 200.0);
      Pitch(FrequencyToNote(frequency, semitoneIndex(frequency)), RoundHundredths(frequency), Some(RoundHundredths(openness)))
  }

  lemma CalculatePitchSpec(hands: seq<Hand>, sqrt: real -> real, semitoneIndex: real -> nat)
    ensures FirstRight(hands).None? ==> CalculatePitch(hands, sqrt, semitoneIndex) == DefaultPitch
    ensures FirstRight(hands).Some? ==>
      var o := Openness(FirstRight(hands).value.landmarks, sqrt);
      var f := 200.0 + 1000.0 * o;
      var p := CalculatePitch(hands, sqrt, semitoneIndex);
      && 200.0 <= p.frequency <= 1200.0
      && f - 0.005 < p.frequency <= f + 0.005
      && p.openness.Some? && 0.0 <= p.openness.value <= 1.0
      && p.note == NoteName(semitoneIndex(f))
  {
    if FirstRight(hands).Some? {
      var o := Openness(FirstRight(hands).value.landmarks, sqrt);
      RoundHundredthsBounds(200.0 + o * 1000.0, 20000, 120000);
      RoundHundredthsBounds(o, 0, 100);
    }
  }

  // ---------------------------------------------------------------------------
  // getAudioControlValues

  datatype AudioControls = AudioControls(volume: real, pitch: string, frequency: real, openness: real, timestamp: int)

  /** getAudioControlValues at time `now`; `pitch.openness || 0` reads the
      missing openness of the fallback pitch as 0. */
  function AudioControlValues(hands: seq<Hand>, sqrt: real -> real, semitoneIndex: real -> nat, now: int): Result<AudioControls>
  {
    match CalculateVolume(hands)
    case TypeError => TypeError
    case Ok(volume) =>
      var pitch := CalculatePitch(hands, sqrt, semitoneIndex);
      var openness := if pitch.openness.Some? then pitch.openness.value else 0.0;
      Ok(AudioControls(volume, pitch.note, pitch.frequency, openness, now))
  }

  lemma AudioControlValuesRanges(hands: seq<Hand>, sqrt: real -> real, semitoneIndex: real -> nat, now: int)
    ensures AudioControlValues(hands, sqrt, semitoneIndex, now).TypeError? <==> CalculateVolume(hands).TypeError?
    ensures AudioControlValues(hands, sqrt, semitoneIndex, now).Ok? ==>
      var a := AudioControlValues(hands, sqrt, semitoneIndex, now).value;
      && 0.0 <= a.volume <= 1.0 && 0.0 <= a.openness <= 1.0 && a.timestamp == now
      && (a.frequency == 261.63 || 200.0 <= a.frequency <= 1200.0)
      && (FirstRight(hands).None? <==> a.pitch == "C4" && a.frequency == 261.63 && a.openness == 0.0 && a.volume == 0.0)
  {
    CalculateVolumeSpec(hands);
    CalculatePitchSpec(hands, sqrt, semitoneIndex);
  }
}
