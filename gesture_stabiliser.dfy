/** The gesture stabiliser of `GestureRecognizer`: the tracking pair
    (currentGesture, gestureFrameCount) that demands consecutive frames with
    the same top candidate, the debounce clock `lastGestureTime`, and the
    five-entry gesture history. The tracking step is also written as a pure
    function, `Track`, so that whole runs of frames can be reasoned about. */
module GestureStabiliser {
  import opened Common
  import opened Hands
  import opened GestureClassifier

  const MaxHistoryLength: nat := 5

  /** An entry of `gestureHistory`. */
  datatype HistoryEntry = HistoryEntry(gesture: Candidate, timestamp: int)

  /** The pair (currentGesture, gestureFrameCount). */
  datatype Tracking = Tracking(current: Option<Candidate>, frameCount: nat)

  const Idle: Tracking := Tracking(None, 0)

  /** processGestureDetection on the tracking pair: the new pair, and whether
      the gesture is confirmed (executeGesture is called). A confirmed gesture
      always resets tracking, whatever the debounce then decides. */
  function Track(t: Tracking, g: Candidate, stabilityFrames: int): (Tracking, bool)
  {
    if t.current.Some? && t.current.value.name == g.name then
      if t.frameCount + 1 >= stabilityFrames then (Idle, true)
      else (Tracking(t.current, t.frameCount + 1), false)
    else (Tracking(Some(g), 1), false)
  }

  /** One frame of recognizeGesture: no candidate resets tracking. */
  function Step(t: Tracking, frame: Option<Candidate>, stabilityFrames: int): (Tracking, bool)
  {
    if frame.None? then (Idle, false) else Track(t, frame.value, stabilityFrames)
  }

  /** The tracking pair after a run of frames. */
  function Run(t: Tracking, frames: seq<Option<Candidate>>, stabilityFrames: int): Tracking
  {
    if frames == [] then t
    else Step(Run(t, frames[..|frames| - 1], stabilityFrames), frames[|frames| - 1], stabilityFrames).0
  }

  /** Whether the last frame of a run confirms a gesture. */
  function ConfirmsLast(t: Tracking, frames: seq<Option<Candidate>>, stabilityFrames: int): bool
    requires frames != []
  {
    Step(Run(t, frames[..|frames| - 1], stabilityFrames), frames[|frames| - 1], stabilityFrames).1
  }

  /** The number of trailing frames that carry a candidate with the same name
      as the last frame's. */
  function Streak(frames: seq<Option<Candidate>>): nat
  {
    if frames == [] || frames[|frames| - 1].None? then 0
    else
      var init := frames[..|frames| - 1];
      if init != [] && init[|init| - 1].Some? && init[|init| - 1].value.name == frames[|frames| - 1].value.name
      then Streak(init) + 1
      else 1
  }

  /** From a fresh recogniser, a tracked gesture always names the last frame's
      candidate and its frame count never exceeds the current streak. */
  lemma {:induction false} RunTracksStreak(frames: seq<Option<Candidate>>, stabilityFrames: int)
    ensures var t := Run(Idle, frames, stabilityFrames);
      && (t.current.None? <==> t.frameCount == 0)
      && (t.current.Some? ==>
            && frames != [] && frames[|frames| - 1].Some?
            && frames[|frames| - 1].value.name == t.current.value.name
            && t.frameCount <= Streak(frames))
  {
    if frames != [] {
      RunTracksStreak(frames[..|frames| - 1], stabilityFrames);
    }
  }

  /** No gesture is confirmed unless the same name was the top candidate for
      at least max(2, stabilityFrames) consecutive frames: the first frame of
      a new name only starts the count. */
  lemma NoConfirmationWithoutStreak(frames: seq<Option<Candidate>>, stabilityFrames: int)
    requires frames != []
    requires ConfirmsLast(Idle, frames, stabilityFrames)
    ensures Streak(frames) >= 2
    ensures Streak(frames) >= stabilityFrames
  {
    RunTracksStreak(frames[..|frames| - 1], stabilityFrames);
  }

  function Repeat(g: Candidate, n: nat): (r: seq<Option<Candidate>>)
    ensures |r| == n
  {
    seq(n, _ => Some(g))
  }

  /** Fewer than max(2, stabilityFrames) identical frames only count up. */
  lemma {:induction false} RepeatCountsUp(g: Candidate, n: nat, stabilityFrames: int)
    requires n < stabilityFrames || n < 2
    ensures Run(Idle, Repeat(g, n), stabilityFrames) == if n == 0 then Idle else Tracking(Some(g), n)
  {
    if n > 0 {
      assert Repeat(g, n)[..n - 1] == Repeat(g, n - 1);
      RepeatCountsUp(g, n - 1, stabilityFrames);
    }
  }

  /** max(2, stabilityFrames) identical frames are enough: the last of them
      confirms the gesture, and none before it does. */
  lemma RepeatConfirms(g: Candidate, stabilityFrames: int)
    ensures var m := if stabilityFrames < 2 then 2 else stabilityFrames;
      && ConfirmsLast(Idle, Repeat(g, m), stabilityFrames)
      && forall k :: 1 <= k < m ==> !ConfirmsLast(Idle, Repeat(g, k), stabilityFrames)
  {
    var m := if stabilityFrames < 2 then 2 else stabilityFrames;
    assert Repeat(g, m)[..m - 1] == Repeat(g, m - 1);
    RepeatCountsUp(g, m - 1, stabilityFrames);
    forall k | 1 <= k < m
      ensures !ConfirmsLast(Idle, Repeat(g, k), stabilityFrames)
    {
      assert Repeat(g, k)[..k - 1] == Repeat(g, k - 1);
      RepeatCountsUp(g, k - 1, stabilityFrames);
    }
  }

  /** The last `n` entries of a sequence (all of it when shorter). */
  function LastN<T>(s: seq<T>, n: nat): (r: seq<T>)
    ensures |r| <= n && |r| <= |s|
    ensures r == s[|s| - |r|..]
    ensures |s| <= n ==> r == s
  {
    if |s| <= n then s else s[|s| - n..]
  }

  /** The last `n` entries are exactly the suffix of length min(n, |s|): a
      log longer than `n` keeps precisely its `n` newest entries. */
  lemma LastNSpec<T>(s: seq<T>, n: nat)
    ensures |LastN(s, n)| == if |s| <= n then |s| else n
    ensures LastN(s, n) == s[|s| - |LastN(s, n)|..]
    ensures forall i :: 0 <= i < |LastN(s, n)| ==> LastN(s, n)[i] == s[|s| - |LastN(s, n)| + i]
  {
  }

  /** `push` followed by `shift` when the array grew past `n`. */
  function PushCapped<T>(h: seq<T>, e: T, n: nat): seq<T>
  {
    if |h + [e]| > n then (h + [e])[1..] else h + [e]
  }

  /** Pushing onto the last n entries, then dropping the oldest when too long,
      gives the last n entries of the extended sequence. */
  lemma LastNPushCapped<T>(s: seq<T>, e: T, n: nat)
    requires n >= 1
    ensures PushCapped(LastN(s, n), e, n) == LastN(s + [e], n)
  {
    if |s| + 1 > n {
      assert (s + [e])[|s| + 1 - n..] == s[|s| + 1 - n..] + [e];
    }
  }

  /** The gesture-event debounce over a log of fired gestures: each one at
      least the delay then in force after the previous one. */
  ghost predicate Debounced(fired: seq<HistoryEntry>, delays: seq<int>)
  {
    && |delays| == |fired|
    && (forall i :: 0 <= i < |delays| ==> delays[i] >= 100)
    && (forall i :: 0 < i < |fired| ==> Gap(fired, i) >= delays[i])
  }

  /** Firing once more, no sooner after the last firing than the current
      debounce delay, keeps the log debounced. */
  lemma DebouncedPush(fired: seq<HistoryEntry>, delays: seq<int>, e: HistoryEntry, delay: int)
    requires Debounced(fired, delays) && delay >= 100
    requires |fired| > 0 ==> e.timestamp - fired[|fired| - 1].timestamp >= delay
    ensures Debounced(fired + [e], delays + [delay])
  {
    var f, d := fired + [e], delays + [delay];
    forall i | 0 < i < |f|
      ensures Gap(f, i) >= d[i]
    {
      if i < |fired| {
        assert Gap(f, i) == Gap(fired, i);
      }
    }
  }

  /** The time between the i-th fired gesture and the one before it. */
  function Gap(fired: seq<HistoryEntry>, i: nat): int
    requires 0 < i < |fired|
  {
    fired[i].timestamp - fired[i - 1].timestamp
  }

  /** The recogniser's frame outcome: `null` without hands, else the
      classification of the first hand (which may throw). */
  function FrameOutcome(hands: seq<Hand>, confidenceThreshold: real): Result<Option<Candidate>>
  {
    if hands == [] then Ok(None) else AnalyzeHandGesture(hands[0].landmarks, confidenceThreshold)
  }

  class GestureRecognizer {
    var lastGestureTime: int
    var gestureDebounceDelay: int
    var gestureHistory: seq<HistoryEntry>
    var confidenceThreshold: real
    var stabilityFrames: int
    var currentGesture: Option<Candidate>
    var gestureFrameCount: nat

    /** Every gesture handed to the gesture callback, oldest first, and the
        debounce delay in force when each was. */
    ghost var fired: seq<HistoryEntry>
    ghost var firedDelays: seq<int>

    ghost predicate Valid()
      reads this
    {
      && 0.0 <= confidenceThreshold <= 1.0
      && gestureDebounceDelay >= 100
      && stabilityFrames >= 1
      && (currentGesture.None? <==> gestureFrameCount == 0)
      && LogValid()
    }

    /** The part of the invariant about what has been fired: it reads only
        the debounce state, so tracking updates leave it alone. */
    ghost predicate LogValid()
      reads this`fired, this`firedDelays, this`gestureHistory, this`lastGestureTime
    {
      && Debounced(fired, firedDelays)
      && gestureHistory == LastN(fired, MaxHistoryLength)
      && lastGestureTime == (if fired == [] then 0 else fired[|fired| - 1].timestamp)
    }

    function Tracked(): Tracking
      reads this
    {
      Tracking(currentGesture, gestureFrameCount)
    }

    constructor ()
      ensures Valid()
      ensures lastGestureTime == 0 && gestureDebounceDelay == 1000 && gestureHistory == []
      ensures confidenceThreshold == 0.7 && stabilityFrames == 3 && Tracked() == Idle
      ensures fired == []
    {
      lastGestureTime := 0;
      gestureDebounceDelay := 1000;
      gestureHistory := [];
      confidenceThreshold := 0.7;
      stabilityFrames := 3;
      currentGesture := None;
      gestureFrameCount := 0;
      fired := [];
      firedDelays := [];
      new;
      assert Debounced(fired, firedDelays);
      assert gestureHistory == LastN(fired, MaxHistoryLength);
    }

    method ResetGestureState()
      requires Valid()
      modifies this`currentGesture, this`gestureFrameCount
      ensures Valid()
      ensures Tracked() == Idle
    {
      currentGesture := None;
      gestureFrameCount := 0;
    }

    /** addToHistory: push, then shift once the history is longer than five. */
    method AddToHistory(g: Candidate, now: int)
      modifies this`gestureHistory
      ensures gestureHistory == PushCapped(old(gestureHistory), HistoryEntry(g, now), MaxHistoryLength)
      ensures |old(gestureHistory)| <= MaxHistoryLength ==> |gestureHistory| <= MaxHistoryLength
    {
      gestureHistory := gestureHistory + [HistoryEntry(g, now)];
      if |gestureHistory| > MaxHistoryLength {
        gestureHistory := gestureHistory[1..];
      }
    }

    /** executeGesture: rejected inside the debounce window; otherwise the
        clock moves to `now`, the history grows and the gesture is emitted. */
    method ExecuteGesture(g: Candidate, now: int) returns (emitted: bool)
      requires LogValid() && gestureDebounceDelay >= 100
      modifies this`lastGestureTime, this`gestureHistory, this`fired, this`firedDelays
      ensures LogValid()
      ensures emitted <==> now - old(lastGestureTime) >= gestureDebounceDelay
      ensures emitted ==> lastGestureTime == now && fired == old(fired) + [HistoryEntry(g, now)]
      ensures !emitted ==> lastGestureTime == old(lastGestureTime) && gestureHistory == old(gestureHistory)
                           && fired == old(fired)
    {
      if now - lastGestureTime < gestureDebounceDelay {
        return false;
      }
      LastNPushCapped(fired, HistoryEntry(g, now), MaxHistoryLength);
      DebouncedPush(fired, firedDelays, HistoryEntry(g, now), gestureDebounceDelay);
      lastGestureTime := now;
      AddToHistory(g, now);
      fired := fired + [HistoryEntry(g, now)];
      firedDelays := firedDelays + [gestureDebounceDelay];
      emitted := true;
    }

    /** processGestureDetection: returns the gesture handed to the callback, if any. */
    method ProcessGestureDetection(g: Candidate, now: int) returns (emitted: Option<Candidate>)
      requires Valid()
      modifies this`currentGesture, this`gestureFrameCount, this`lastGestureTime, this`gestureHistory,
               this`fired, this`firedDelays
      ensures Valid()
      ensures Tracked() == Track(old(Tracked()), g, stabilityFrames).0
      ensures emitted.Some? <==> Track(old(Tracked()), g, stabilityFrames).1
                                 && now - old(lastGestureTime) >= gestureDebounceDelay
      ensures emitted.Some? ==> emitted.value == g && lastGestureTime == now
                                && fired == old(fired) + [HistoryEntry(g, now)]
      ensures emitted.None? ==> lastGestureTime == old(lastGestureTime) && gestureHistory == old(gestureHistory)
                                && fired == old(fired)
    {
      if currentGesture.Some? && currentGesture.value.name == g.name {
        gestureFrameCount := gestureFrameCount + 1;
        if gestureFrameCount >= stabilityFrames {
          var ok := ExecuteGesture(g, now);
          emitted := if ok then Some(g) else None;
          ResetGestureState();
        } else {
          emitted := None;
        }
      } else {
        currentGesture := Some(g);
        gestureFrameCount := 1;
        emitted := None;
      }
    }

    /** recognizeGesture: classifies the first hand and feeds the stabiliser.
        A TypeError from the classifier leaves every field as it was. */
    method RecognizeGesture(hands: seq<Hand>, now: int) returns (gesture: Result<Option<Candidate>>, emitted: Option<Candidate>)
      requires Valid()
      modifies this`currentGesture, this`gestureFrameCount, this`lastGestureTime, this`gestureHistory,
               this`fired, this`firedDelays
      ensures Valid()
      ensures gesture == FrameOutcome(hands, confidenceThreshold)
      ensures gesture.TypeError? ==> Tracked() == old(Tracked()) && emitted.None?
      ensures gesture.Ok? ==> Tracked() == Step(old(Tracked()), gesture.value, stabilityFrames).0
      ensures emitted.Some? <==> gesture.Ok? && Step(old(Tracked()), gesture.value, stabilityFrames).1
                                 && now - old(lastGestureTime) >= gestureDebounceDelay
      ensures emitted.Some? ==> gesture == Ok(emitted) && lastGestureTime == now
                                && fired == old(fired) + [HistoryEntry(emitted.value, now)]
      ensures emitted.None? ==> lastGestureTime == old(lastGestureTime) && gestureHistory == old(gestureHistory)
                                && fired == old(fired)
    {
      if hands == [] {
        ResetGestureState();
        return Ok(None), None;
      }
      gesture := AnalyzeHandGesture(hands[0].landmarks, confidenceThreshold);
      emitted := None;
      if gesture.TypeError? {
        return;
      }
      if gesture.value.Some? {
        emitted := ProcessGestureDetection(gesture.value.value, now);
      } else {
        ResetGestureState();
      }
    }

    method SetConfidenceThreshold(threshold: real)
      requires Valid()
      modifies this`confidenceThreshold
      ensures Valid()
      ensures confidenceThreshold == Clamp(threshold, 0.0, 1.0)
    {
      confidenceThreshold := Max(0.0, Min(1.0, threshold));
    }

    method SetDebounceDelay(delay: int)
      requires Valid()
      modifies this`gestureDebounceDelay
      ensures Valid()
      ensures gestureDebounceDelay == AtLeast(delay, 100)
    {
      gestureDebounceDelay := if delay < 100 then 100 else delay;
    }

    method SetStabilityFrames(frames: int)
      requires Valid()
      modifies this`stabilityFrames
      ensures Valid()
      ensures stabilityFrames == AtLeast(frames, 1)
    {
      stabilityFrames := if frames < 1 then 1 else frames;
    }
  }
}
