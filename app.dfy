/** `MusicGestureApp`: routes confirmed gestures and keyboard shortcuts to the
    player, labels gestures for the on-screen list, forwards recogniser
    settings and pauses or resumes hand tracking. What the app does besides
    calling the player (toggling the visualisation, messages, feedback, stopping
    and restarting the camera) is recorded in the ghost log `effects`. */
module App {
  import opened Common
  import opened Hands
  import opened GestureClassifier
  import opened GestureStabiliser
  import opened Player
  import opened DrumTriggers

  // ---------------------------------------------------------------------------
  // Dispatch tables

  /** The operation a gesture action or a shortcut invokes. */
  datatype Operation =
    | TogglePlayPauseOp | StopOp | NextOp | PreviousOp | VolumeUpOp | VolumeDownOp
    | ToggleVisualizationOp | ConfirmOp

  /** handleGestureAction's switch: the operation for an action string. */
  function ActionOp(action: string): Option<Operation>
  {
    if action == "play_pause" then Some(TogglePlayPauseOp)
    else if action == "stop" then Some(StopOp)
    else if action == "next" then Some(NextOp)
    else if action == "previous" then Some(PreviousOp)
    else if action == "volume_up" then Some(VolumeUpOp)
    else if action == "volume_down" then Some(VolumeDownOp)
    else if action == "toggle_visualization" then Some(ToggleVisualizationOp)
    else if action == "confirm" then Some(ConfirmOp)
    else None
  }

  /** The action string each operation answers to; ActionOp's inverse. */
  function OpAction(op: Operation): string
  {
    match op
    case TogglePlayPauseOp => "play_pause"
    case StopOp => "stop"
    case NextOp => "next"
    case PreviousOp => "previous"
    case VolumeUpOp => "volume_up"
    case VolumeDownOp => "volume_down"
    case ToggleVisualizationOp => "toggle_visualization"
    case ConfirmOp => "confirm"
  }

  /** Each of the eight action strings selects exactly one operation, every
      operation is selected by exactly one string, and any other string
      selects none. */
  lemma ActionOpBijective(action: string, op: Operation)
    ensures ActionOp(OpAction(op)) == Some(op)
    ensures ActionOp(action) == Some(op) <==> action == OpAction(op)
  {
  }

  /** Every gesture the classifier can report is dispatched to an operation. */
  lemma KnownGesturesDispatch(c: Candidate)
    requires IsKnownGesture(c)
    ensures ActionOp(c.action).Some?
    ensures c.name == "open_palm" ==> ActionOp(c.action) == Some(TogglePlayPauseOp)
    ensures c.name == "closed_fist" ==> ActionOp(c.action) == Some(StopOp)
    ensures c.name == "thumbs_up" ==> ActionOp(c.action) == Some(VolumeUpOp)
    ensures c.name == "thumbs_down" ==> ActionOp(c.action) == Some(VolumeDownOp)
    ensures c.name == "pointing_left" ==> ActionOp(c.action) == Some(PreviousOp)
    ensures c.name == "pointing_right" ==> ActionOp(c.action) == Some(NextOp)
    ensures c.name == "peace_sign" ==> ActionOp(c.action) == Some(ToggleVisualizationOp)
    ensures c.name == "ok_sign" ==> ActionOp(c.action) == Some(ConfirmOp)
  {
  }

  /** gestureMatchesDescription's table from gesture names to list labels. */
  function LabelOf(name: string): Option<string>
  {
    if name == "open_palm" then Some("Open Palm")
    else if name == "closed_fist" then Some("Closed Fist")
    else if name == "thumbs_up" then Some("Thumbs Up")
    else if name == "thumbs_down" then Some("Thumbs Down")
    else if name == "pointing_left" then Some("Point Left")
    else if name == "pointing_right" then Some("Point Right")
    else if name == "peace_sign" then Some("Peace Sign")
    else if name == "ok_sign" then Some("OK Sign")
    else None
  }

  predicate GestureMatchesDescription(g: Candidate, description: string)
  {
    LabelOf(g.name) == Some(description)
  }

  /** A known gesture matches exactly its own label; an unmapped name
      matches nothing. */
  lemma GestureMatchesDescriptionSpec(g: Candidate, description: string)
    ensures LabelOf(g.name).None? ==> !GestureMatchesDescription(g, description)
    ensures IsKnownGesture(g) ==>
      && LabelOf(g.name).Some?
      && (GestureMatchesDescription(g, description) <==> description == LabelOf(g.name).value)
  {
  }

  /** Distinct gestures have distinct labels, so a label picks one gesture. */
  lemma LabelOfInjective(n1: string, n2: string)
    requires LabelOf(n1).Some? && LabelOf(n1) == LabelOf(n2)
    ensures n1 == n2
  {
  }

  /** A keydown event: its `code`, the tag of its target and the modifier keys. */
  datatype KeyEvent = KeyEvent(code: string, targetTag: string, ctrlKey: bool, metaKey: bool)

  /** handleKeyboardShortcuts' switch. */
  function KeyOp(e: KeyEvent): Option<Operation>
  {
    if e.targetTag == "INPUT" || e.targetTag == "TEXTAREA" then None
    else if e.code == "Space" then Some(TogglePlayPauseOp)
    else if e.code == "ArrowRight" then Some(NextOp)
    else if e.code == "ArrowLeft" then Some(PreviousOp)
    else if e.code == "ArrowUp" then Some(VolumeUpOp)
    else if e.code == "ArrowDown" then Some(VolumeDownOp)
    else if e.code == "KeyS" && (e.ctrlKey || e.metaKey) then Some(StopOp)
    else None
  }

  /** Typing in a field never triggers a shortcut; Ctrl/Cmd+S is the only
      shortcut that stops playback and S alone does nothing; the keyboard
      reaches the six player operations and nothing else. */
  lemma KeyOpSpec(e: KeyEvent)
    ensures e.targetTag == "INPUT" || e.targetTag == "TEXTAREA" ==> KeyOp(e).None?
    ensures KeyOp(e) == Some(StopOp) <==>
              e.targetTag != "INPUT" && e.targetTag != "TEXTAREA" && e.code == "KeyS" && (e.ctrlKey || e.metaKey)
    ensures KeyOp(e).Some? ==> KeyOp(e).value != ToggleVisualizationOp && KeyOp(e).value != ConfirmOp
  {
  }

  // ---------------------------------------------------------------------------
  // The player's response to an operation

  /** What the app can see of the player. */
  datatype PlayerView = PlayerView(playlist: seq<Track>, currentTrackIndex: int, isPlaying: bool,
                                   duration: real, volume: real, audio: seq<AudioCommand>)

  ghost function ViewOf(p: MusicPlayer): PlayerView
    reads p
  {
    PlayerView(p.playlist, p.currentTrackIndex, p.isPlaying, p.duration, p.volume, p.audio)
  }

  ghost predicate ValidView(v: PlayerView)
  {
    && 0 <= v.currentTrackIndex
    && (v.playlist != [] ==> v.currentTrackIndex < |v.playlist|)
    && 0.0 <= v.volume <= 1.0
    && v.duration >= 0.0
  }

  /** The player state after an operation; the visualisation toggle and the
      confirmation do not touch the player. */
  ghost function ApplyOp(op: Operation, v: PlayerView): PlayerView
    requires ValidView(v)
  {
    match op
    case TogglePlayPauseOp =>
      v.(audio := v.audio + if v.isPlaying then [PauseRequest] else if v.playlist != [] then [PlayRequest] else [])
    case StopOp => v.(audio := v.audio + [PauseRequest, SetPosition(0.0)])
    case NextOp =>
      if v.playlist == [] then v
      else
        var i := NextIndex(v.currentTrackIndex, |v.playlist|);
        v.(currentTrackIndex := i, audio := v.audio + [LoadSource(v.playlist[i])] + (if v.isPlaying then [PlayRequest] else []))
    case PreviousOp =>
      if v.playlist == [] then v
      else
        var i := PrevIndex(v.currentTrackIndex, |v.playlist|);
        v.(currentTrackIndex := i, audio := v.audio + [LoadSource(v.playlist[i])] + (if v.isPlaying then [PlayRequest] else []))
    case VolumeUpOp =>
      var level := VolumeUpLevel(v.volume);
      v.(volume := level, audio := v.audio + [SetVolumeTo(level)])
    case VolumeDownOp =>
      var level := VolumeDownLevel(v.volume);
      v.(volume := level, audio := v.audio + [SetVolumeTo(level)])
    case ToggleVisualizationOp => v
    case ConfirmOp => v
  }

  /** Every operation keeps the player consistent and never changes the
      playlist; next then previous (or previous then next) returns to the
      track it started from. */
  lemma ApplyOpSpec(op: Operation, v: PlayerView)
    requires ValidView(v)
    ensures ValidView(ApplyOp(op, v)) && ApplyOp(op, v).playlist == v.playlist
    ensures ApplyOp(PreviousOp, ApplyOp(NextOp, v)).currentTrackIndex == v.currentTrackIndex
    ensures ApplyOp(NextOp, ApplyOp(PreviousOp, v)).currentTrackIndex == v.currentTrackIndex
  {
    if v.playlist != [] {
      CursorSteps(v.currentTrackIndex, |v.playlist|);
    }
    VolumeStepsInverse(v.volume);
  }

  /** The app's own effects, besides calling the player. */
  datatype Effect = VisualizationToggled | ConfirmationShown | GestureFeedback(gesture: Candidate)
                  | HandlerStopped | HandlerRestarted

  /** The app's own effect of an operation: only the visualisation toggle
      and the confirmation have one; the others act on the player alone. */
  function EffectOf(op: Operation): seq<Effect>
  {
    match op
    case ToggleVisualizationOp => [VisualizationToggled]
    case ConfirmOp => [ConfirmationShown]
    case _ => []
  }

  /** adjustGestureSettings' argument; a missing field is `undefined`. */
  datatype GestureSettings = GestureSettings(confidenceThreshold: Option<real>, debounceDelay: Option<int>, stabilityFrames: Option<int>)

  class MusicGestureApp {
    const handler: MediaPipeHandler
    const player: MusicPlayer
    const recognizer: GestureRecognizer
    var isInitialized: bool
    var isRunning: bool

    ghost var effects: seq<Effect>

    ghost predicate Valid()
      reads this, handler, player, recognizer
    {
      && handler.Valid() && player.Valid() && recognizer.Valid()
      && (isRunning ==> isInitialized)
    }

    /** The constructor and init: the components are created, and both flags
        are set only when initialisation completes without an error. */
    constructor (initSucceeds: bool)
      ensures Valid()
      ensures fresh(handler) && fresh(player) && fresh(recognizer)
      ensures isInitialized == initSucceeds && isRunning == initSucceeds && effects == []
    {
      handler := new MediaPipeHandler();
      player := new MusicPlayer();
      recognizer := new GestureRecognizer();
      isInitialized := initSucceeds;
      isRunning := initSucceeds;
      effects := [];
    }

    /** One case of handleGestureAction's switch (and of the shortcut
        handler's): the player method it calls, or the app's own effect. */
    method Perform(op: Operation)
      requires Valid()
      modifies player, this`effects
      ensures Valid()
      ensures ViewOf(player) == ApplyOp(op, old(ViewOf(player)))
      ensures effects == old(effects) + EffectOf(op)
    {
      match op
      case TogglePlayPauseOp => player.TogglePlayPause();
      case StopOp => player.Stop();
      case NextOp => player.Next();
      case PreviousOp => player.Previous();
      case VolumeUpOp => player.GestureVolumeUp();
      case VolumeDownOp => player.GestureVolumeDown();
      case ToggleVisualizationOp => effects := effects + [VisualizationToggled];
      case ConfirmOp => effects := effects + [ConfirmationShown];
    }

    /** handleGestureAction: the gesture's action picks at most one operation
        (ActionOp is the switch); feedback for the gesture follows in every
        case. */
    method HandleGestureAction(g: Candidate) returns (op: Option<Operation>)
      requires Valid()
      modifies player, this`effects
      ensures Valid()
      ensures op == ActionOp(g.action)
      ensures op.Some? ==> ViewOf(player) == ApplyOp(op.value, old(ViewOf(player)))
      ensures op.None? ==> ViewOf(player) == old(ViewOf(player))
      ensures effects == old(effects) + (if op.Some? then EffectOf(op.value) else []) + [GestureFeedback(g)]
    {
      op := ActionOp(g.action);
      if op.Some? {
        Perform(op.value);
      }
      effects := effects + [GestureFeedback(g)];
    }

    /** handleKeyboardShortcuts: returns the operation (KeyOp is the key
        switch), whose event also has its default action prevented. The
        keydown listener is registered only by a completed initialisation;
        pausing stops the camera, not the listener. */
    method HandleKeyboardShortcuts(e: KeyEvent) returns (op: Option<Operation>)
      requires Valid() && isInitialized
      modifies player, this`effects
      ensures Valid()
      ensures op == KeyOp(e)
      ensures op.Some? ==> ViewOf(player) == ApplyOp(op.value, old(ViewOf(player)))
      ensures op.None? ==> ViewOf(player) == old(ViewOf(player))
      ensures effects == old(effects)
    {
      op := KeyOp(e);
      if op.Some? {
        KeyOpSpec(e);
        Perform(op.value);
      }
    }

    /** The result callback wired in setupConnections: the recogniser sees the
        frame, and a gesture it hands on is dispatched. The callback exists
        only once initialisation has completed, and frames arrive only while
        the camera runs, that is while the app is not paused. */
    method OnResults(hands: seq<Hand>, now: int) returns (gesture: Result<Option<Candidate>>, emitted: Option<Candidate>, op: Option<Operation>)
      requires Valid() && isRunning
      modifies recognizer`currentGesture, recognizer`gestureFrameCount, recognizer`lastGestureTime,
               recognizer`gestureHistory, recognizer`fired, recognizer`firedDelays, player, this`effects
      ensures Valid()
      ensures gesture == FrameOutcome(hands, recognizer.confidenceThreshold)
      ensures gesture.TypeError? ==> recognizer.Tracked() == old(recognizer.Tracked()) && emitted.None?
      ensures gesture.Ok? ==>
                recognizer.Tracked() == Step(old(recognizer.Tracked()), gesture.value, recognizer.stabilityFrames).0
      ensures emitted.Some? <==> gesture.Ok? && Step(old(recognizer.Tracked()), gesture.value, recognizer.stabilityFrames).1
                                 && now - old(recognizer.lastGestureTime) >= recognizer.gestureDebounceDelay
      ensures emitted.Some? ==> gesture == Ok(emitted)
                                && recognizer.fired == old(recognizer.fired) + [HistoryEntry(emitted.value, now)]
      ensures emitted.None? ==> recognizer.fired == old(recognizer.fired)
      ensures op == if emitted.Some? then ActionOp(emitted.value.action) else None
      ensures op.Some? ==> ViewOf(player) == ApplyOp(op.value, old(ViewOf(player)))
      ensures op.None? ==> ViewOf(player) == old(ViewOf(player))
      ensures effects == old(effects)
                         + (if op.Some? then EffectOf(op.value) else [])
                         + (if emitted.Some? then [GestureFeedback(emitted.value)] else [])
    {
      gesture, emitted := recognizer.RecognizeGesture(hands, now);
      op := None;
      if emitted.Some? {
        op := HandleGestureAction(emitted.value);
      }
    }

    /** pauseApp: only a running app stops, so a second call does nothing. */
    method PauseApp()
      requires Valid()
      modifies this`isRunning, this`effects
      ensures Valid()
      ensures old(isRunning) ==> !isRunning && effects == old(effects) + [HandlerStopped]
      ensures !old(isRunning) ==> !isRunning && effects == old(effects)
    {
      if isRunning {
        isRunning := false;
        effects := effects + [HandlerStopped];
      }
    }

    /** resumeApp: only a paused, initialised app restarts. */
    method ResumeApp()
      requires Valid()
      modifies this`isRunning, this`effects
      ensures Valid()
      ensures !old(isRunning) && isInitialized ==> isRunning && effects == old(effects) + [HandlerRestarted]
      ensures !(!old(isRunning) && isInitialized) ==> isRunning == old(isRunning) && effects == old(effects)
    {
      if !isRunning && isInitialized {
        isRunning := true;
        effects := effects + [HandlerRestarted];
      }
    }

    /** adjustGestureSettings: each defined field goes through its setter; a
        missing field leaves that setting alone. */
    method AdjustGestureSettings(settings: GestureSettings)
      requires Valid()
      modifies recognizer`confidenceThreshold, recognizer`gestureDebounceDelay, recognizer`stabilityFrames
      ensures Valid()
      ensures recognizer.confidenceThreshold ==
                if settings.confidenceThreshold.Some? then Clamp(settings.confidenceThreshold.value, 0.0, 1.0)
                else old(recognizer.confidenceThreshold)
      ensures recognizer.gestureDebounceDelay ==
                if settings.debounceDelay.Some? then AtLeast(settings.debounceDelay.value, 100)
                else old(recognizer.gestureDebounceDelay)
      ensures recognizer.stabilityFrames ==
                if settings.stabilityFrames.Some? then AtLeast(settings.stabilityFrames.value, 1)
                else old(recognizer.stabilityFrames)
    {
      if settings.confidenceThreshold.Some? {
        recognizer.SetConfidenceThreshold(settings.confidenceThreshold.value);
      }
      if settings.debounceDelay.Some? {
        recognizer.SetDebounceDelay(settings.debounceDelay.value);
      }
      if settings.stabilityFrames.Some? {
        recognizer.SetStabilityFrames(settings.stabilityFrames.value);
      }
    }
  }
}
