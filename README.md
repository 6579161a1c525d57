# Hand-gesture music control: a Dafny model

The application watches a camera feed through MediaPipe Hands and turns
what it sees into music control. Each video frame yields up to two hands of
21 landmarks, each hand labelled "Left" or "Right" by handedness. Four
components react to a frame:

- **Gesture recognition** (`GestureRecognizer`) classifies the first hand
  into one of eight static gestures (open palm, closed fist, thumbs up or
  down, pointing left or right, peace sign, OK sign). It confirms a gesture
  only after it has held for several consecutive frames, and it debounces
  confirmed gestures.
- **Hand controls** (`MediaPipeHandler`) map the right hand to continuous
  values. The wrist height sets the volume. The spread of the fingertips
  sets an openness, and the openness sets a pitch with its note name.
- **Drum triggers** (`MediaPipeHandler`) track the left wrist's velocity
  from frame to frame. A fast enough movement plays a kick, snare, hi-hat
  or clap, with one global 100 ms cooldown between hits.
- **The music player** (`MusicPlayer`) keeps a playlist of uploaded audio
  files, a cursor, play and pause, seeking, and a volume in [0, 1].
  **The app** (`MusicGestureApp`) routes confirmed gestures and keyboard
  shortcuts to the player, and pauses or resumes tracking.

The model follows the source's form. Pure computations are functions, for
example the classifier, the drum decision table, the volume and pitch maps,
the name-to-label table and formatTime. Each one is paired with lemmas about
its meaning. The objects whose fields the source updates are classes:
`GestureRecognizer`, `MediaPipeHandler`, `MusicPlayer` and `MusicGestureApp`.
Their methods carry `modifies` clauses and state their whole new state.

Each class also keeps a ghost log of what it has done. The recogniser's
and the drum handler's `Valid()` invariants are stated over their logs
(the debounce and the cooldown). The player's and the app's logs are
described by the `ensures` of each of their methods, which give the new log
as the old one plus the entries the call adds:

| class | ghost log | what it records |
|---|---|---|
| `GestureRecognizer` | `fired` | the confirmed gestures |
| `MediaPipeHandler` | `hits` | the drum hits played |
| `MusicPlayer` | `audio` | the requests made of the `<audio>` element |
| `MusicGestureApp` | `effects` | the app's own visible effects |

Loops that the source writes as loops are methods with invariants, proved
equal to a specification function:

- `countExtendedFingers`
- `calculateHandOpenness`
- `processDrumGestures`' forEach over hands
- `loadFiles`' filter

Modules, one per file:

| module | file | holds |
|---|---|---|
| `Common` | `common.dfy` | `Option`, `Result` (a JavaScript TypeError is `TypeError`), clamps, flooring, `toFixed(2)`, digit strings |
| `Hands` | `hands.dfy` | landmarks and hands |
| `GestureClassifier` | `gesture_classifier.dfy` | one hand to at most one gesture candidate |
| `GestureStabiliser` | `gesture_stabiliser.dfy` | frame counting, debounce and history, and the `GestureRecognizer` class |
| `HandControls` | `hand_controls.dfy` | volume, openness, pitch and note names |
| `DrumTriggers` | `drum_triggers.dfy` | drum tracking, the decision table, the cooldown, and the drum and configuration parts of `MediaPipeHandler` |
| `Player` | `music_player.dfy` | `MusicPlayer` |
| `App` | `app.dfy` | `MusicGestureApp` |

Browser services become parameters:

- `Math.sqrt` is a function parameter `sqrt`. Every property holds for any
  such function.
- `Math.round(12 * Math.log2(f / C0))` is a caller-supplied semitone index.
- `Date.now()` is a parameter `now`.

### Behaviour of the code as written

- **Malformed hands.** The code raises a TypeError in three places:
  - `analyzeHandGesture` with fewer than 18 landmarks (`getPalmCenter`
    reads `landmarks[17]`);
  - `calculateVolume` on a right hand without landmarks;
  - `processDrumGestures` on a left hand without landmarks. The forEach
    then stops, and earlier hands' updates stay.

  These are `TypeError` results.
- **Thumbs down.** `detectThumbsDown` can never fire; see "## Findings".

## Model

| member | source | states |
|---|---|---|
| GestureClassifier.IsFingerExtended | js/gesture-recognition.js:279-287 | a finger counts as extended exactly when both its tip and MCP exist and the tip lies more than 0.02 above the MCP |
| GestureClassifier.CountExtendedFingers | js/gesture-recognition.js:267-277 | the loop over the five fingers returns the number of non-excluded extended fingers (ExtendedCount), at most 5 |
| GestureClassifier.CountAmongIsCardinality | js/gesture-recognition.js:267-277 | counting over a duplicate-free finger list equals the size of the set of listed, non-excluded, extended fingers |
| GestureClassifier.ExtendedCountBounds | js/gesture-recognition.js:267-277 | the count is the number of extended fingers outside the exclusion and never exceeds 5 minus the number excluded |
| GestureClassifier.ExtendedThumbNeverPointsDown | js/gesture-recognition.js:289-297 | an extended thumb's direction is never "down"; it is "up" exactly when its tip is more than 0.05 above the MCP |
| GestureClassifier.DistanceBelowIffSquareBelow | js/gesture-recognition.js:309-313 | the OK sign's distance test against a bound is equivalent to comparing squared distances, for any square root |
| GestureClassifier.DetectionsWellFormed | js/gesture-recognition.js:126-264 | every detector reports one of the eight known gestures, with its own action and description, and a confidence in [0, 1] |
| GestureClassifier.OpenPalmAndClosedFist | js/gesture-recognition.js:126-154 | open palm fires iff at least 4 fingers are extended (confidence count/5); closed fist iff at most 1 (confidence 1 - count/5); never both |
| GestureClassifier.ThumbDetectors | js/gesture-recognition.js:156-194 | thumbs up needs the thumb alone extended; thumbs down never fires; the two never fire together |
| GestureClassifier.Survivors | js/gesture-recognition.js:65 | the kept candidates are exactly the reported ones whose confidence exceeds the threshold |
| GestureClassifier.SurvivorsAppend | js/gesture-recognition.js:65 | the filter keeps detection order: filtering a concatenation is filtering each part in turn |
| GestureClassifier.InsertDesc | js/gesture-recognition.js:68 | inserting into a descending list keeps it descending, adds exactly one copy of the candidate, and puts it first iff it is at least as confident as the old head |
| GestureClassifier.SortByConfidence | js/gesture-recognition.js:68 | the sort returns a descending permutation of its input |
| GestureClassifier.BestIndex | js/gesture-recognition.js:67-69 | picks a candidate of greatest confidence, with every earlier candidate strictly less confident |
| GestureClassifier.SortHeadIsFirstBest | js/gesture-recognition.js:67-69 | the head of the stable descending sort is the first candidate of greatest confidence, so ties go to the detector evaluated first |
| GestureClassifier.AnalyzeHandGestureSpec | js/gesture-recognition.js:46-73 | with at least 18 landmarks there is no TypeError; the result is no gesture iff no detector clears the threshold, and otherwise a reported, known gesture with confidence in (threshold, 1] that no surviving candidate beats, namely the first most confident survivor |
| GestureClassifier.ThumbsUpBeatsClosedFist | js/gesture-recognition.js:141-174 | a hand with only the thumb extended and pointing up is classified as thumbs up (0.9), not closed fist |
| GestureClassifier.PointingAndPeace | js/gesture-recognition.js:196-245 | pointing left and pointing right never fire together; a peace sign whose index tip is more than 0.1 to one side also satisfies the pointing detector for that side |
| GestureClassifier.PointingLeftBeatsPeaceSign | js/gesture-recognition.js:45-68 | a peace sign pointing left is classified as pointing left (0.85), not as the peace sign (0.8) |
| GestureClassifier.OpenPalmWins | js/gesture-recognition.js:46-139 | a hand with at least four extended fingers is classified as the open palm with confidence count/5, whenever that beats the threshold |
| GestureClassifier.FourFingersSilenceOthers | js/gesture-recognition.js:141-264 | with four or more extended fingers the closed fist, thumb, pointing and peace detectors cannot fire, and the OK sign scores only 0.75 |
| GestureClassifier.FirstDetectionStrictlyBest | js/gesture-recognition.js:65-69 | a surviving first detection more confident than every later one is the one the stable sort puts first |
| GestureClassifier.IsThumbStretched | js/gesture-recognition.js:279-287 | the corrected thumb test: both joints present and the tip more than 0.02 from the MCP vertically, in either direction; every extended thumb passes it |
| GestureClassifier.ThumbsDownCorrectedFires | js/gesture-recognition.js:176-194 | the corrected detector reports thumbs down exactly for a thumb pointing down with the other four fingers not extended |
| GestureClassifier.DownThumbShowsTheDifference | js/gesture-recognition.js:176-194 | on a concrete down-pointing thumb the detector as written reports nothing and the corrected one reports thumbs down |
| GestureClassifier.ClosedFistOutranksCorrectedThumbsDown | js/gesture-recognition.js:141-154 | whenever the corrected thumbs-down detector fires, the closed fist fires with confidence 1.0 |
| GestureStabiliser.RunTracksStreak | js/gesture-recognition.js:316-328 | from a fresh recogniser, something is tracked iff its frame count is non-zero, a tracked gesture has the name of the last frame's candidate, and its count never exceeds the current streak of that name |
| GestureStabiliser.NoConfirmationWithoutStreak | js/gesture-recognition.js:316-328 | a gesture is confirmed only after at least max(2, stabilityFrames) consecutive frames of it |
| GestureStabiliser.RepeatCountsUp | js/gesture-recognition.js:316-328 | repeating one gesture below the confirmation point counts its frames up from 1 |
| GestureStabiliser.RepeatConfirms | js/gesture-recognition.js:316-328 | holding one gesture confirms it on exactly frame max(2, stabilityFrames) and not earlier |
| GestureStabiliser.LastNSpec | js/gesture-recognition.js:353-362 | the history is the suffix of the log of length min(n, log length): the whole log while it is short, otherwise exactly its n most recent entries, entry by entry |
| GestureStabiliser.LastN | js/gesture-recognition.js:353-362 | the history is a suffix of the log, at most n long, and the whole log while it is short |
| GestureStabiliser.LastNPushCapped | js/gesture-recognition.js:353-362 | pushing and then dropping the oldest beyond the cap keeps the history equal to the last 5 entries of the full log |
| GestureStabiliser.DebouncedPush | js/gesture-recognition.js:330-346 | firing no sooner than the current debounce delay after the last firing keeps the log debounced |
| GestureStabiliser.GestureRecognizer.constructor | js/gesture-recognition.js:7-23 | the initial settings: 1000 ms debounce, threshold 0.7, 3 stability frames, empty history, nothing tracked |
| GestureStabiliser.GestureRecognizer.ResetGestureState | js/gesture-recognition.js:348-351 | the tracker is idle afterwards and the recogniser invariant still holds |
| GestureStabiliser.GestureRecognizer.AddToHistory | js/gesture-recognition.js:353-362 | appends the entry and drops the oldest beyond 5 |
| GestureStabiliser.GestureRecognizer.ExecuteGesture | js/gesture-recognition.js:330-346 | fires iff the debounce delay has passed since the last firing, and then logs the gesture and moves the clock; the debounced-log invariant is kept |
| GestureStabiliser.GestureRecognizer.ProcessGestureDetection | js/gesture-recognition.js:316-328 | the tracker takes the Track step, and the gesture is handed on iff Track confirms it and the debounce allows it |
| GestureStabiliser.GestureRecognizer.RecognizeGesture | js/gesture-recognition.js:26-44 | classifies the first hand (or reports none); a TypeError leaves the tracker alone; otherwise the tracker steps and a gesture is emitted only when confirmed and debounced |
| GestureStabiliser.GestureRecognizer.SetConfidenceThreshold | js/gesture-recognition.js:365-367 | the threshold is clamped to [0, 1] |
| GestureStabiliser.GestureRecognizer.SetDebounceDelay | js/gesture-recognition.js:369-371 | the delay is at least 100 ms |
| GestureStabiliser.GestureRecognizer.SetStabilityFrames | js/gesture-recognition.js:373-375 | the stability count is at least 1 |
| HandControls.FirstRight | js/mediapipe-handler.js:1041 | the first hand labelled "Right", or none when no hand is |
| HandControls.VolumeAtBounds | js/mediapipe-handler.js:1036-1058 | the volume lies in [0, 1] |
| HandControls.VolumeAtMonotone | js/mediapipe-handler.js:1036-1058 | raising the hand never lowers the volume |
| HandControls.VolumeAtLandmarks | js/mediapipe-handler.js:1044-1057 | a wrist at y <= 0.1 (top of the frame) gives 1, at y >= 0.9 gives 0, and at 0.5 gives 0.5 |
| HandControls.CalculateVolumeSpec | js/mediapipe-handler.js:1036-1058 | 0 without a right hand; TypeError iff the first right hand has no landmarks; otherwise the volume of its wrist height, in [0, 1] |
| HandControls.Openness | js/mediapipe-handler.js:1090-1122 | the openness lies in [0, 1], and is 0 for fewer than 21 landmarks |
| HandControls.CalculateHandOpenness | js/mediapipe-handler.js:1090-1122 | the loop over the five fingertips computes Openness |
| HandControls.TipDistanceSumMonotone | js/mediapipe-handler.js:1104-1108 | fingertips no closer to the wrist give a sum no smaller |
| HandControls.OpennessMonotone | js/mediapipe-handler.js:1090-1122 | spreading every fingertip further from the wrist never lowers the openness |
| HandControls.OpennessSaturates | js/mediapipe-handler.js:1110-1121 | every tip at least 0.3 from the wrist gives openness 1; every tip at most 0.1 gives 0 |
| HandControls.NoteNameRoundTrip | js/mediapipe-handler.js:1133-1145 | every note name reads back as the semitone index it was built from |
| HandControls.NoteNameInjective | js/mediapipe-handler.js:1133-1145 | distinct semitone indices give distinct note names |
| HandControls.FrequencyToNoteSpec | js/mediapipe-handler.js:1133-1145 | at or below C0 the note is "C4"; above C0 it is the pitch class h mod 12 with octave h div 12, and it reads back as h |
| HandControls.CalculatePitchSpec | js/mediapipe-handler.js:1061-1087 | without a right hand the default C4 at 261.63 Hz; otherwise the openness mapped onto [200, 1200] Hz, rounded to hundredths, with its note |
| HandControls.AudioControlValuesRanges | js/mediapipe-handler.js:1148-1159 | fails iff calculateVolume fails; otherwise volume and openness in [0, 1], frequency in [200, 1200] or the default 261.63, time `now`; without a right hand exactly the defaults "C4", 261.63, openness 0 and volume 0 |
| DrumTriggers.ClassifyDrumGestureFires | js/mediapipe-handler.js:1555-1593 | some drum is chosen exactly when the speed exceeds 0.3 |
| DrumTriggers.ClassifyLeftHand | js/mediapipe-handler.js:1555-1593 | the left hand's table: snare iff fast upward, clap iff fast sideways with an open hand, kick and hi-hat exactly in the remaining fast cases |
| DrumTriggers.ClassifyOtherHandFallback | js/mediapipe-handler.js:1581-1589 | outside the primary rules a hand not labelled "Left" gets snare above 0.6 and clap below |
| DrumTriggers.NormalizeDrumVelocity | js/mediapipe-handler.js:1604 | the playback velocity lies in [0.1, 1] |
| DrumTriggers.NormalizeDrumVelocitySpec | js/mediapipe-handler.js:1604 | twice the speed between 0.05 and 0.5, clamped to 0.1 below and 1 above, and monotone |
| DrumTriggers.HandIdInjective | js/mediapipe-handler.js:1492 | distinct hand positions get distinct dictionary keys |
| DrumTriggers.DetectDrum | js/mediapipe-handler.js:1533-1553 | a drum is chosen only outside the cooldown and at or above the velocity threshold |
| DrumTriggers.TrackHandsCooldown | js/mediapipe-handler.js:1480-1553 | one frame plays at most one hit, at time `now`, from a left hand of the frame, only after the cooldown; the clock moves only with a hit |
| DrumTriggers.TrackHandsThrows | js/mediapipe-handler.js:1486-1500 | the frame throws exactly when some left hand has no landmarks |
| DrumTriggers.TrackHandsThrowPersists | js/mediapipe-handler.js:1486 | after a throw no later hand is looked at |
| DrumTriggers.TrackHandsUntouched | js/mediapipe-handler.js:1480-1531 | dictionary keys of no left hand of the frame keep their entries |
| DrumTriggers.TrackHandsLater | js/mediapipe-handler.js:1480-1531 | hands after a given one leave alone every key none of them owns |
| DrumTriggers.TrackHandsLeftEntries | js/mediapipe-handler.js:1494-1529 | each left hand's position becomes its wrist at `now`, and its velocity is replaced only when it was seen before at an earlier time |
| DrumTriggers.ProcessFrameNoOp | js/mediapipe-handler.js:1481 | disabled drums or an empty frame change nothing |
| DrumTriggers.CooledDownPairwise | js/mediapipe-handler.js:1537-1549 | in a cooled-down log any two hits j - i apart are at least (j - i) * 100 ms apart |
| DrumTriggers.MediaPipeHandler.constructor | js/mediapipe-handler.js:7-58 | drums enabled, threshold 0.05, smoothing 0.1, clock 0, no tracked hands |
| DrumTriggers.MediaPipeHandler.ProcessDrumGestures | js/mediapipe-handler.js:1480-1531 | the new tracker, the frame's hits and the throw are those of ProcessFrame; the hits are appended to the log and the cooldown invariant is kept |
| DrumTriggers.MediaPipeHandler.ProcessHand | js/mediapipe-handler.js:1486-1530 | one turn of the forEach performs one TrackHand step, and writes nothing when it throws |
| DrumTriggers.MediaPipeHandler.DetectDrumGestures | js/mediapipe-handler.js:1533-1553 | plays the hit DetectDrum chooses, with its normalised velocity, and moves the clock only then |
| DrumTriggers.MediaPipeHandler.EnableDrums | js/mediapipe-handler.js:1811-1817 | drums are enabled |
| DrumTriggers.MediaPipeHandler.DisableDrums | js/mediapipe-handler.js:1819-1822 | drums are disabled |
| DrumTriggers.MediaPipeHandler.ToggleDrums | js/mediapipe-handler.js:1824-1830 | the enabled flag flips |
| DrumTriggers.MediaPipeHandler.SetDrumSensitivity | js/mediapipe-handler.js:1832-1836 | the threshold is clamped to [0.01, 0.2] |
| DrumTriggers.MediaPipeHandler.SetSmoothingFactor | js/mediapipe-handler.js:1791-1794 | the factor is clamped to [0.01, 1] |
| DrumTriggers.MediaPipeHandler.ClearGestureHistory | js/mediapipe-handler.js:1963-1975 | forgets every tracked hand and velocity and resets the clock to 0 |
| Player.LastDotUnique | js/music-player.js:126 | the last dot of a name is the only dot with no dot after it |
| Player.StripExtensionRemovesExtension | js/music-player.js:126 | the name is either unchanged or loses exactly a final dot and a non-empty tail containing no dot or slash |
| Player.StripExtensionOfExtended | js/music-player.js:126 | a base name followed by a dot and a dot-free extension strips back to the base |
| Player.StripExtensionNoDot | js/music-player.js:126 | a name without a dot is kept whole |
| Player.AudioTracksAppend | js/music-player.js:120-132 | filtering a concatenation is the concatenation of the filtered parts |
| Player.AudioTracksSpec | js/music-player.js:120-132 | the playlist holds one track per audio file and no more: every track is made from an audio file of the input, and every audio file's track is present |
| Player.CursorSteps | js/music-player.js:192-212 | next and previous stay inside the playlist and undo each other |
| Player.NextTimesCycles | js/music-player.js:192-200 | k presses of next advance the cursor by k around the playlist, so n presses return to the start |
| Player.VolumeStepsInverse | js/music-player.js:298-308 | the gesture volume steps stay in [0, 1] and undo each other away from the ends |
| Player.VolumeUpTimesSaturates | js/music-player.js:298-302 | k steps up reach min(1, v + 0.1k) |
| Player.FormatTimeNonNegative | js/music-player.js:266-272 | a non-negative time is written as whole minutes, a colon and two zero-padded seconds digits, and reads back as the whole seconds |
| Player.FormatTimeNaN | js/music-player.js:267 | NaN is written "0:00" |
| Player.FormatTimeNegative | js/music-player.js:268-271 | a negative time shows JavaScript's truncating remainder: -5 s is "-1:-5" |
| Player.MusicPlayer.constructor | js/music-player.js:7-21 | an empty playlist, cursor 0, paused, volume 0.5 sent to the audio element |
| Player.MusicPlayer.GetCurrentTrack | js/music-player.js:384-386 | the track under the cursor, present iff the playlist is non-empty |
| Player.MusicPlayer.LoadFiles | js/music-player.js:119-139 | the playlist becomes the audio files' tracks, and the first one is loaded when there is one |
| Player.MusicPlayer.LoadTrack | js/music-player.js:141-152 | an index inside the playlist moves the cursor and loads that track; any other index does nothing |
| Player.MusicPlayer.Play | js/music-player.js:175-181 | requests playback only with a non-empty playlist |
| Player.MusicPlayer.Pause | js/music-player.js:183-185 | requests a pause |
| Player.MusicPlayer.TogglePlayPause | js/music-player.js:167-173 | pauses when playing, otherwise plays |
| Player.MusicPlayer.Stop | js/music-player.js:187-190 | pauses and rewinds to 0 |
| Player.MusicPlayer.Next | js/music-player.js:192-200 | moves the cursor to the next track, wrapping, loads it and resumes if playing; nothing with an empty playlist |
| Player.MusicPlayer.Previous | js/music-player.js:202-212 | moves the cursor to the previous track, wrapping, loads it and resumes if playing; nothing with an empty playlist |
| Player.MusicPlayer.Seek | js/music-player.js:214-216 | sets the position to the time clamped to [0, duration] |
| Player.MusicPlayer.SetVolume | js/music-player.js:218-226 | the volume is clamped to [0, 1] and sent to the audio element |
| Player.MusicPlayer.GestureVolumeUp | js/music-player.js:298-302 | the volume rises by 0.1, capped at 1 |
| Player.MusicPlayer.GestureVolumeDown | js/music-player.js:304-308 | the volume falls by 0.1, floored at 0 |
| App.ActionOpBijective | js/main.js:93-135 | each of the eight action strings selects exactly one operation, each operation exactly one string, and any other string none |
| App.KnownGesturesDispatch | js/main.js:93-135 | every gesture the classifier can report is dispatched to its own operation |
| App.GestureMatchesDescriptionSpec | js/main.js:164-177 | a known gesture matches exactly its own label; an unmapped name matches nothing |
| App.LabelOfInjective | js/main.js:164-177 | distinct gesture names have distinct labels |
| App.KeyOpSpec | js/main.js:223-262 | typing in a field never triggers a shortcut; only Ctrl/Cmd+S stops; the keyboard reaches only the six player operations |
| App.ApplyOpSpec | js/music-player.js:167-308 | every operation keeps the player state valid and the playlist unchanged; next and previous undo each other |
| App.MusicGestureApp.constructor | js/main.js:7-63 | the three components are created; both flags are set only when initialisation succeeds, so a running app is an initialised one |
| App.MusicGestureApp.Perform | js/main.js:93-147 | each operation changes the player as ApplyOp says, or records the visualisation toggle or the confirmation |
| App.MusicGestureApp.HandleGestureAction | js/main.js:93-135 | the action's operation, if any, is performed, and gesture feedback follows in every case |
| App.MusicGestureApp.HandleKeyboardShortcuts | js/main.js:223-262 | only for an initialised app: the key's operation, if any, is performed on the player, and the app's own effects are unchanged |
| App.MusicGestureApp.OnResults | js/main.js:65-76 | only for a running (hence initialised) app: the recogniser sees the frame and its tracker steps (or stays on a TypeError) with its settings untouched; a gesture it confirms and debounces is dispatched, the player's view follows ApplyOp and feedback is recorded; otherwise the player and the effects are unchanged |
| App.MusicGestureApp.PauseApp | js/main.js:264-272 | a running app stops and stops the camera; otherwise nothing; a running app stays an initialised one |
| App.MusicGestureApp.ResumeApp | js/main.js:274-282 | a stopped, initialised app runs again and restarts the camera; otherwise nothing; so the app runs only once initialised |
| App.MusicGestureApp.AdjustGestureSettings | js/main.js:364-376 | each given setting goes through its recogniser setter; missing ones are unchanged |
| Common.ClampMonotone | js/mediapipe-handler.js:1055 | the clamp used by every range check is monotone |
| Common.RoundHundredthsBounds | js/mediapipe-handler.js:1057 | `toFixed(2)` stays within the hundredths that bound its input, and within 0.005 of it |
| Common.RoundHundredthsMonotone | js/mediapipe-handler.js:1057 | `toFixed(2)` is monotone |
| Common.ParseNatToString | js/mediapipe-handler.js:1142 | a number's decimal digits read back as the number |
| Common.NatToStringInjective | js/mediapipe-handler.js:1142 | distinct numbers have distinct decimal strings |

## Findings

| source | as written | input that shows it | evidently intended | confidence | as-written member | corrected member |
|---|---|---|---|---|---|---|
| js/gesture-recognition.js:176-194, 279-295 | `detectThumbsDown` first requires `isFingerExtended(thumb)`, which needs the tip above the MCP joint, and then requires `getThumbDirection` to be `'down'`, which needs the tip more than 0.05 below it; the detector never fires | a hand whose thumb tip is 0.1 below its MCP joint and whose other fingers are curled (`GestureClassifier.DownThumbHand`) | the comment "should be pointing down" and the `thumbs_down`/`volume_down` result show the detector is meant to fire for a thumb pointing down; the thumb test should accept a stretched thumb in either direction, as its absolute-value distance already suggests | not executed; high that the detector is dead, medium on the exact correction | GestureClassifier.ThumbDetectors, GestureClassifier.ExtendedThumbNeverPointsDown, GestureClassifier.DownThumbShowsTheDifference | GestureClassifier.DetectThumbsDownCorrected, proved by GestureClassifier.ThumbsDownCorrectedFires |

The classifier of the model keeps the detector as written, because that is what the app runs. Swapping in the corrected detector would not change what `analyzeHandGesture` reports: `GestureClassifier.ClosedFistOutranksCorrectedThumbsDown` shows that whenever it fires, the closed fist fires with confidence 1.0, above thumbs down's 0.9. Reaching the app would also need the general finger count to treat a downward thumb as extended.

## Left out

- Camera, canvas drawing, the Three.js visualiser, Web Audio synthesis and every on-screen message are I/O and are not modelled.
  - The app's visible effects appear only as entries of the ghost log `effects`.
  - The player's requests to `<audio>` appear only as entries of the ghost log `audio`.
- `isPlaying` and `duration` are set by the `<audio>` element's event listeners (js/music-player.js:30-61). They are treated as state the environment sets. No operation of the model changes them.
- Drum samples are not modelled.
  - A classified hit is recorded as a `DrumHit` even when `triggerDrum` finds no loaded sample or no audio context and plays nothing.
  - `playDrum` (a manual trigger) is not modelled.
- The drum handler's own `gestureHistory` array is never appended to, so it is left out. Its `performanceStats` are left out too.
- Floating point is modelled as exact reals.
  - `toFixed(2)` is modelled as rounding half up to hundredths.
  - `Math.sqrt` is a parameter.
  - `Math.round(12 * Math.log2(f / C0))` is a caller-supplied semitone index.
  - C0 is the decimal constant 16.351597831287414.
- `Infinity` as a duration is left out of formatTime. `seek` with a NaN duration is left out too.
- `getHandControlValues` is not modelled. It hard-codes the key `Left_0`. Only the values it reads (volume, pitch) are modelled.
- The `gesturePlay` and `gesturePause` wrappers of the player are not modelled.
  - The wrappers the app calls behave as the plain player methods plus a message, so they are modelled by those methods.
- App.MusicGestureApp.OnResults: models only the recogniser's callback. The drum pass that the handler runs earlier on the same frame is modelled separately by `ProcessDrumGestures`.
  - A TypeError thrown by the drum pass, which would stop the recogniser from seeing the frame, is not combined with it.
- Every `Date.now()` read made while one frame is handled is the single parameter `now`.
  - This covers executeGesture's read and addToHistory's separate read for the history timestamp (js/gesture-recognition.js:331, 356).
  - It also covers processDrumGestures' read and detectDrumGestures' separate read (js/mediapipe-handler.js:1483, 1535).
  - A clock that ticks between two of these reads is not modelled.
- The track record's `url` field from `URL.createObjectURL(file)` is left out. Nothing in the modelled code reads it back.
- GestureStabiliser.GestureRecognizer.SetDebounceDelay: takes an integer. Fractional delays are not modelled, and neither is `null`, which the app's `!== undefined` test lets through.
- GestureStabiliser.GestureRecognizer.SetStabilityFrames: takes an integer. A fractional count such as 2.5 (which confirms on the third frame) and `null` are not modelled.
- App.MusicGestureApp.AdjustGestureSettings: a missing field is `None`. A field explicitly `null` passes the source's `!== undefined` test and reaches the setter, where `Math.min`/`Math.max` treat it as 0; this case is not modelled.
- App.MusicGestureApp.constructor: reduces the asynchronous initialisation to one flag `initSucceeds`. Which component failed is not modelled.
  - Frames and key presses reach only an initialised app (the result callback and the keydown listener are installed only by a completed initialisation), and frames only a running one (pausing stops the camera). The app invariant records that a running app is initialised; `OnResults` requires a running app and `HandleKeyboardShortcuts` an initialised one.
- GestureStabiliser.GestureRecognizer.RecognizeGesture: the callback is a returned value instead of a call.
  - Gestures that fire are logged in the ghost `fired`.
  - The 5-entry `gestureHistory` is proved to be the last 5 entries of that log.
