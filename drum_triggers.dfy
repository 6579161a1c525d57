/** Drum triggering in `MediaPipeHandler`: left-hand wrist tracking in the
    dictionaries `lastHandPositions` and `handVelocities`, the single global
    100 ms cooldown, the drum-type decision table and the playback velocity,
    plus the handler's configuration clamps. Playing a sample is an event the
    model records (`DrumHit`); `Math.sqrt` is a parameter `sqrt`. */
module DrumTriggers {
  import opened Common
  import opened Hands
  import opened HandControls

  /** Minimum time between two drum hits, whichever hand or drum. */
  const DrumCooldown: int := 100

  /** A tracked wrist position with the time it was seen. */
  datatype Position = Position(x: real, y: real, z: real, time: int)

  datatype Velocity = Velocity(x: real, y: real, z: real, magnitude: real)

  datatype DrumType = Kick | Snare | Hihat | Clap

  /** A classified hit: the drum, the tracked hand, the speed that caused it,
      the velocity handed to the sample's `play` and the time. */
  datatype DrumHit = DrumHit(drum: DrumType, handId: string, magnitude: real, playVelocity: real, time: int)

  /** The handler fields drum tracking reads and writes. */
  datatype Tracker = Tracker(positions: map<string, Position>, velocities: map<string, Velocity>, lastGestureTime: int)

  // ---------------------------------------------------------------------------
  // Classification and playback velocity

  /** classifyDrumGesture: the dominant direction and the hand's openness pick
      a drum; otherwise any speed above 0.3 falls back on the hand's side. */
  function ClassifyDrumGesture(v: Velocity, lms: seq<Point>, handedness: string, sqrt: real -> real): Option<DrumType>
  {
    var speed := v.magnitude;
    var openness := Openness(lms, sqrt);
    var primary :=
      if Abs(v.y) > Abs(v.x) then
        if v.y > 0.1 && speed > 0.8 then Some(Kick)
        else if v.y < -0.1 && speed > 0.6 then Some(Snare)
        else None
      else
        if speed > 0.4 && openness < 0.3 then Some(Hihat)
        else if speed > 0.5 && openness > 0.7 then Some(Clap)
        else None;
    if primary.Some? then primary
    else if speed > 0.3 then
      if handedness == "Left" then (if speed > 0.6 then Some(Kick) else Some(Hihat))
      else (if speed > 0.6 then Some(Snare) else Some(Clap))
    else None
  }

  /** Some drum is chosen exactly when the speed exceeds 0.3. */
  lemma ClassifyDrumGestureFires(v: Velocity, lms: seq<Point>, handedness: string, sqrt: real -> real)
    ensures ClassifyDrumGesture(v, lms, handedness, sqrt).Some? <==> v.magnitude > 0.3
  {
  }

  /** The decision table for the left hand, the only one processDrumGestures
      classifies: a snare needs fast upward motion, a clap fast sideways motion
      with an open hand; every other fast movement is a kick or a hi-hat. */
  lemma ClassifyLeftHand(v: Velocity, lms: seq<Point>, sqrt: real -> real)
    ensures var d := ClassifyDrumGesture(v, lms, "Left", sqrt);
      var vertical := Abs(v.y) > Abs(v.x);
      var o := Openness(lms, sqrt);
      && (d == Some(Snare) <==> vertical && v.y < -0.1 && v.magnitude > 0.6)
      && (d == Some(Clap) <==> !vertical && v.magnitude > 0.5 && o > 0.7)
      && (d == Some(Kick) <==> v.magnitude > 0.6 && (vertical ==> v.y >= -0.1) && (!vertical ==> 0.3 <= o <= 0.7))
      && (d == Some(Hihat) <==> (!vertical && v.magnitude > 0.4 && o < 0.3) ||
                                (0.3 < v.magnitude <= 0.6 && !(!vertical && v.magnitude > 0.5 && o > 0.7)))
  {
  }

  /** The other hand's fallback gives snare or clap, never kick or hi-hat,
      outside the primary rules. */
  lemma ClassifyOtherHandFallback(v: Velocity, lms: seq<Point>, handedness: string, sqrt: real -> real)
    requires handedness != "Left"
    requires Abs(v.y) > Abs(v.x) && -0.1 <= v.y <= 0.1 && v.magnitude > 0.3
    ensures ClassifyDrumGesture(v, lms, handedness, sqrt) == Some(if v.magnitude > 0.6 then Snare else Clap)
  {
  }

  /** The velocity triggerDrum plays a sample with. */
  function NormalizeDrumVelocity(magnitude: real): (r: real)
    ensures 0.1 <= r <= 1.0
  {
    Min(1.0, Max(0.1, magnitude * 2.0))
  }

  lemma NormalizeDrumVelocitySpec(m1: real, m2: real)
    ensures 0.05 <= m1 <= 0.5 ==> NormalizeDrumVelocity(m1) == 2.0 * m1
    ensures m1 <= 0.05 ==> NormalizeDrumVelocity(m1) == 0.1
    ensures m1 >= 0.5 ==> NormalizeDrumVelocity(m1) == 1.0
    ensures m1 <= m2 ==> NormalizeDrumVelocity(m1) <= NormalizeDrumVelocity(m2)
  {
  }

  // ---------------------------------------------------------------------------
  // Tracking one frame

  /** The dictionary key of the hand at position `index` (only left hands are tracked). */
  function HandId(index: nat): string
  {
    "Left_" + NatToString(index)
  }

  lemma HandIdInjective(i: nat, j: nat)
    requires HandId(i) == HandId(j)
    ensures i == j
  {
    assert NatToString(i) == HandId(i)[5..];
    assert NatToString(j) == HandId(j)[5..];
    NatToStringInjective(i, j);
  }

  /** The wrist of a hand seen at `now`. */
  function WristAt(hand: Hand, now: int): Position
    requires hand.landmarks != []
  {
    Position(hand.landmarks[0].x, hand.landmarks[0].y, hand.landmarks[0].z, now)
  }

  /** The velocity between two positions, per second, and its speed. */
  function VelocityBetween(last: Position, current: Position, sqrt: real -> real): Velocity
    requires current.time > last.time
  {
    var dt := (current.time - last.time) as real / 1000.0;
    var vx := (current.x - last.x) / dt;
    var vy := (current.y - last.y) / dt;
    var vz := (current.z - last.z) / dt;
    Velocity(vx, vy, vz, sqrt(vx * vx + vy * vy + vz * vz))
  }

  /** detectDrumGestures' decision: the drum to play, if any. */
  function DetectDrum(lastGestureTime: int, v: Velocity, lms: seq<Point>, handedness: string, now: int,
                      velocityThreshold: real, sqrt: real -> real): (r: Option<DrumType>)
    ensures r.Some? ==> now - lastGestureTime >= DrumCooldown && v.magnitude >= velocityThreshold
  {
    if now - lastGestureTime < DrumCooldown then None
    else if v.magnitude < velocityThreshold then None
    else ClassifyDrumGesture(v, lms, handedness, sqrt)
  }

  function Lookup<V>(m: map<string, V>, key: string): Option<V>
  {
    if key in m then Some(m[key]) else None
  }

  datatype HandStep = HandStep(tracker: Tracker, hit: Option<DrumHit>)

  /** One iteration of processDrumGestures' forEach: other hands are skipped,
      a left hand without landmarks throws, and a left hand updates its own
      entries (velocity only after a strictly earlier sighting). */
  function TrackHand(t: Tracker, index: nat, hand: Hand, now: int, velocityThreshold: real, sqrt: real -> real): Result<HandStep>
  {
    if !IsLeft(hand) then Ok(HandStep(t, None))
    else if hand.landmarks == [] then TypeError
    else
      var id := HandId(index);
      var current := WristAt(hand, now);
      if id in t.positions && now - t.positions[id].time > 0 then
        var v := VelocityBetween(t.positions[id], current, sqrt);
        var drum := DetectDrum(t.lastGestureTime, v, hand.landmarks, hand.handedness, now, velocityThreshold, sqrt);
        if drum.Some? then
          var hit := DrumHit(drum.value, id, v.magnitude, NormalizeDrumVelocity(v.magnitude), now);
          Ok(HandStep(Tracker(t.positions[id := current], t.velocities[id := v], now), Some(hit)))
        else
          Ok(HandStep(Tracker(t.positions[id := current], t.velocities[id := v], t.lastGestureTime), None))
      else
        Ok(HandStep(Tracker(t.positions[id := current], t.velocities, t.lastGestureTime), None))
  }

  datatype DrumFrame = DrumFrame(tracker: Tracker, hits: seq<DrumHit>, threw: bool)

  /** The first k iterations of the forEach; a throw ends the loop and keeps
      what earlier iterations wrote. */
  function TrackHands(t: Tracker, hands: seq<Hand>, k: nat, now: int, velocityThreshold: real, sqrt: real -> real): DrumFrame
    requires k <= |hands|
  {
    if k == 0 then DrumFrame(t, [], false)
    else
      var prev := TrackHands(t, hands, k - 1, now, velocityThreshold, sqrt);
      if prev.threw then prev
      else
        match TrackHand(prev.tracker, k - 1, hands[k - 1], now, velocityThreshold, sqrt)
        case TypeError => DrumFrame(prev.tracker, prev.hits, true)
        case Ok(step) => DrumFrame(step.tracker, prev.hits + (if step.hit.Some? then [step.hit.value] else []), false)
  }

  /** processDrumGestures: nothing happens while drums are disabled. */
  function ProcessFrame(t: Tracker, drumEnabled: bool, hands: seq<Hand>, now: int, velocityThreshold: real, sqrt: real -> real): DrumFrame
  {
    if !drumEnabled then DrumFrame(t, [], false)
    else TrackHands(t, hands, |hands|, now, velocityThreshold, sqrt)
  }

  /** The cooldown within one frame: at most one hit, since the first hit
      moves the clock to `now`; the clock moves only with a hit, and a hit
      belongs to a left hand of the frame. */
  lemma {:induction false} TrackHandsCooldown(t: Tracker, hands: seq<Hand>, k: nat, now: int, velocityThreshold: real, sqrt: real -> real)
    requires k <= |hands|
    ensures var r := TrackHands(t, hands, k, now, velocityThreshold, sqrt);
      && |r.hits| <= 1
      && (r.hits == [] ==> r.tracker.lastGestureTime == t.lastGestureTime)
      && (r.hits != [] ==> r.hits[0].time == now && now - t.lastGestureTime >= DrumCooldown
                           && r.tracker.lastGestureTime == now && 0.1 <= r.hits[0].playVelocity <= 1.0
                           && exists j :: 0 <= j < k && IsLeft(hands[j]) && r.hits[0].handId == HandId(j))
  {
    if k > 0 {
      TrackHandsCooldown(t, hands, k - 1, now, velocityThreshold, sqrt);
    }
  }

  /** The loop throws exactly when some left hand has no landmarks. */
  lemma {:induction false} TrackHandsThrows(t: Tracker, hands: seq<Hand>, k: nat, now: int, velocityThreshold: real, sqrt: real -> real)
    requires k <= |hands|
    ensures TrackHands(t, hands, k, now, velocityThreshold, sqrt).threw <==>
              exists j :: 0 <= j < k && IsLeft(hands[j]) && hands[j].landmarks == []
  {
    if k > 0 {
      TrackHandsThrows(t, hands, k - 1, now, velocityThreshold, sqrt);
    }
  }

  /** After a throw, later hands are never looked at. */
  lemma {:induction false} TrackHandsThrowPersists(t: Tracker, hands: seq<Hand>, k: nat, k': nat, now: int, velocityThreshold: real, sqrt: real -> real)
    requires k <= k' <= |hands|
    requires TrackHands(t, hands, k, now, velocityThreshold, sqrt).threw
    ensures TrackHands(t, hands, k', now, velocityThreshold, sqrt) == TrackHands(t, hands, k, now, velocityThreshold, sqrt)
  {
    if k' > k {
      TrackHandsThrowPersists(t, hands, k, k' - 1, now, velocityThreshold, sqrt);
    }
  }

  /** Keys other than the frame's left hands' are untouched. */
  lemma {:induction false} TrackHandsUntouched(t: Tracker, hands: seq<Hand>, k: nat, now: int, velocityThreshold: real, sqrt: real -> real, id: string)
    requires k <= |hands|
    requires forall j :: 0 <= j < k && IsLeft(hands[j]) ==> id != HandId(j)
    ensures var r := TrackHands(t, hands, k, now, velocityThreshold, sqrt);
      && Lookup(r.tracker.positions, id) == Lookup(t.positions, id)
      && Lookup(r.tracker.velocities, id) == Lookup(t.velocities, id)
  {
    if k > 0 {
      TrackHandsUntouched(t, hands, k - 1, now, velocityThreshold, sqrt, id);
      var prev := TrackHands(t, hands, k - 1, now, velocityThreshold, sqrt);
      if !prev.threw && TrackHand(prev.tracker, k - 1, hands[k - 1], now, velocityThreshold, sqrt).Ok? {
        TrackHandOtherKey(prev.tracker, k - 1, hands[k - 1], now, velocityThreshold, sqrt, id);
      }
    }
  }

  /** Each left hand's position is overwritten with its wrist, and its
      velocity is set only when it was seen before at an earlier time. */
  lemma {:induction false} TrackHandsLeftEntries(t: Tracker, hands: seq<Hand>, k: nat, now: int, velocityThreshold: real, sqrt: real -> real, j: nat)
    requires j < k <= |hands|
    requires IsLeft(hands[j])
    requires !TrackHands(t, hands, k, now, velocityThreshold, sqrt).threw
    ensures hands[j].landmarks != []
    ensures var r := TrackHands(t, hands, k, now, velocityThreshold, sqrt);
      var id := HandId(j);
      && Lookup(r.tracker.positions, id) == Some(WristAt(hands[j], now))
      && Lookup(r.tracker.velocities, id) ==
           if id in t.positions && now > t.positions[id].time
           then Some(VelocityBetween(t.positions[id], WristAt(hands[j], now), sqrt))
           else Lookup(t.velocities, id)
  {
    TrackHandsThrows(t, hands, k, now, velocityThreshold, sqrt);
    var id := HandId(j);
    forall i | j < i < k && IsLeft(hands[i])
      ensures id != HandId(i)
    {
      if id == HandId(i) {
        HandIdInjective(j, i);
      }
    }
    forall i | 0 <= i < j && IsLeft(hands[i])
      ensures id != HandId(i)
    {
      if id == HandId(i) {
        HandIdInjective(i, j);
      }
    }
    var prev := TrackHands(t, hands, j, now, velocityThreshold, sqrt);
    if prev.threw {
      TrackHandsThrowPersists(t, hands, j, k, now, velocityThreshold, sqrt);
    }
    if TrackHands(t, hands, j + 1, now, velocityThreshold, sqrt).threw {
      TrackHandsThrowPersists(t, hands, j + 1, k, now, velocityThreshold, sqrt);
    }
    TrackHandsUntouched(t, hands, j, now, velocityThreshold, sqrt, id);
    assert (id in prev.tracker.positions <==> id in t.positions)
      && (id in t.positions ==> prev.tracker.positions[id] == t.positions[id]);
    TrackHandsLater(t, hands, j + 1, k, now, velocityThreshold, sqrt, id);
  }

  /** Hands after the (m-1)-th leave a key alone that none of them owns. */
  lemma {:induction false} TrackHandsLater(t: Tracker, hands: seq<Hand>, m: nat, k: nat, now: int, velocityThreshold: real, sqrt: real -> real, id: string)
    requires m <= k <= |hands|
    requires forall i :: m <= i < k && IsLeft(hands[i]) ==> id != HandId(i)
    requires !TrackHands(t, hands, k, now, velocityThreshold, sqrt).threw
    ensures var r := TrackHands(t, hands, k, now, velocityThreshold, sqrt);
      var p := TrackHands(t, hands, m, now, velocityThreshold, sqrt);
      && Lookup(r.tracker.positions, id) == Lookup(p.tracker.positions, id)
      && Lookup(r.tracker.velocities, id) == Lookup(p.tracker.velocities, id)
  {
    if k > m {
      TrackHandsLater(t, hands, m, k - 1, now, velocityThreshold, sqrt, id);
      var prev := TrackHands(t, hands, k - 1, now, velocityThreshold, sqrt);
      TrackHandOtherKey(prev.tracker, k - 1, hands[k - 1], now, velocityThreshold, sqrt, id);
    }
  }

  /** One hand leaves alone every key but its own. */
  lemma TrackHandOtherKey(t: Tracker, index: nat, hand: Hand, now: int, velocityThreshold: real, sqrt: real -> real, id: string)
    requires IsLeft(hand) ==> id != HandId(index)
    requires TrackHand(t, index, hand, now, velocityThreshold, sqrt).Ok?
    ensures var r := TrackHand(t, index, hand, now, velocityThreshold, sqrt).value.tracker;
      && Lookup(r.positions, id) == Lookup(t.positions, id)
      && Lookup(r.velocities, id) == Lookup(t.velocities, id)
  {
  }

  /** A disabled handler, or a frame without hands, changes nothing. */
  lemma ProcessFrameNoOp(t: Tracker, drumEnabled: bool, hands: seq<Hand>, now: int, velocityThreshold: real, sqrt: real -> real)
    requires !drumEnabled || hands == []
    ensures ProcessFrame(t, drumEnabled, hands, now, velocityThreshold, sqrt) == DrumFrame(t, [], false)
  {
  }

  /** The cooldown log: consecutive hits at least DrumCooldown apart. */
  ghost predicate CooledDown(hits: seq<DrumHit>)
  {
    forall i :: 0 < i < |hits| ==> HitGap(hits, i) >= DrumCooldown
  }

  function HitGap(hits: seq<DrumHit>, i: nat): int
    requires 0 < i < |hits|
  {
    hits[i].time - hits[i - 1].time
  }

  /** Consecutive spacing adds up: any two hits of a cooled-down log are at
      least DrumCooldown apart for every hit between them. */
  lemma {:induction false} CooledDownPairwise(hits: seq<DrumHit>, i: nat, j: nat)
    requires CooledDown(hits)
    requires i < j < |hits|
    ensures hits[j].time - hits[i].time >= (j - i) * DrumCooldown
  {
    if j > i + 1 {
      CooledDownPairwise(hits, i, j - 1);
    }
    assert HitGap(hits, j) >= DrumCooldown;
  }

  // ---------------------------------------------------------------------------
  // The handler

  class MediaPipeHandler {
    var drumEnabled: bool
    var lastGestureTime: int
    var velocityThreshold: real
    var smoothingFactor: real
    var lastHandPositions: map<string, Position>
    var handVelocities: map<string, Velocity>

    /** Every drum hit since the last clearGestureHistory, oldest first. */
    ghost var hits: seq<DrumHit>

    ghost predicate Valid()
      reads this
    {
      && 0.01 <= velocityThreshold <= 0.2
      && 0.01 <= smoothingFactor <= 1.0
      && CooledDown(hits)
      && lastGestureTime == (if hits == [] then 0 else hits[|hits| - 1].time)
    }

    function State(): Tracker
      reads this
    {
      Tracker(lastHandPositions, handVelocities, lastGestureTime)
    }

    constructor ()
      ensures Valid()
      ensures drumEnabled && lastGestureTime == 0 && velocityThreshold == 0.05 && smoothingFactor == 0.1
      ensures lastHandPositions == map[] && handVelocities == map[] && hits == []
    {
      drumEnabled := true;
      lastGestureTime := 0;
      velocityThreshold := 0.05;
      smoothingFactor := 0.1;
      lastHandPositions := map[];
      handVelocities := map[];
      hits := [];
    }

    /** processDrumGestures on one frame's hands at time `now`: returns the
        hits triggered and whether a left hand without landmarks threw. */
    method ProcessDrumGestures(hands: seq<Hand>, now: int, sqrt: real -> real) returns (frameHits: seq<DrumHit>, threw: bool)
      requires Valid()
      modifies this`lastGestureTime, this`lastHandPositions, this`handVelocities, this`hits
      ensures Valid()
      ensures DrumFrame(State(), frameHits, threw) == ProcessFrame(old(State()), drumEnabled, hands, now, velocityThreshold, sqrt)
      ensures hits == old(hits) + frameHits
    {
      if !drumEnabled || hands == [] {
        return [], false;
      }
      ghost var t0 := State();
      frameHits, threw := [], false;
      var index := 0;
      while index < |hands|
        invariant 0 <= index <= |hands|
        invariant DrumFrame(State(), frameHits, threw) == TrackHands(t0, hands, index, now, velocityThreshold, sqrt)
        invariant !threw
        invariant hits == old(hits) + frameHits
        invariant Valid()
      {
        var hit, handThrew := ProcessHand(index, hands[index], now, sqrt);
        if handThrew {
          threw := true;
          TrackHandsThrowPersists(t0, hands, index + 1, |hands|, now, velocityThreshold, sqrt);
          return;
        }
        if hit.Some? {
          frameHits := frameHits + [hit.value];
        }
        index := index + 1;
      }
    }

    /** One turn of processDrumGestures' forEach: a right hand is skipped, a
        left hand without landmarks throws before anything is written, and a
        left hand moves its entry in the position map, records its velocity
        when time has passed, and may fire a hit. */
    method ProcessHand(index: nat, hand: Hand, now: int, sqrt: real -> real) returns (hit: Option<DrumHit>, threw: bool)
      requires Valid()
      modifies this`lastGestureTime, this`lastHandPositions, this`handVelocities, this`hits
      ensures Valid()
      ensures var step := TrackHand(old(State()), index, hand, now, velocityThreshold, sqrt);
        && (threw <==> step.TypeError?)
        && (threw ==> State() == old(State()) && hit.None?)
        && (!threw ==> State() == step.value.tracker && hit == step.value.hit)
      ensures hits == old(hits) + (if hit.Some? then [hit.value] else [])
    {
      hit, threw := None, false;
      if IsLeft(hand) {
        if hand.landmarks == [] {
          threw := true;
          return;
        }
        var handId := HandId(index);
        var currentPos := WristAt(hand, now);
        if handId in lastHandPositions {
          var lastPos := lastHandPositions[handId];
          if now - lastPos.time > 0 {
            var velocity := VelocityBetween(lastPos, currentPos, sqrt);
            handVelocities := handVelocities[handId := velocity];
            hit := DetectDrumGestures(handId, velocity, hand.landmarks, hand.handedness, now, sqrt);
          }
        }
        lastHandPositions := lastHandPositions[handId := currentPos];
      }
    }

    /** detectDrumGestures: a hit inside the cooldown or below the velocity
        threshold is ignored; a classified hit moves the cooldown clock. */
    method DetectDrumGestures(handId: string, v: Velocity, lms: seq<Point>, handedness: string, now: int, sqrt: real -> real)
      returns (hit: Option<DrumHit>)
      requires Valid()
      modifies this`lastGestureTime, this`hits
      ensures Valid()
      ensures var drum := DetectDrum(old(lastGestureTime), v, lms, handedness, now, velocityThreshold, sqrt);
        && (hit.Some? <==> drum.Some?)
        && (hit.Some? ==> hit.value == DrumHit(drum.value, handId, v.magnitude, NormalizeDrumVelocity(v.magnitude), now))
      ensures hit.Some? ==> lastGestureTime == now && hits == old(hits) + [hit.value]
      ensures hit.None? ==> lastGestureTime == old(lastGestureTime) && hits == old(hits)
    {
      if now - lastGestureTime < DrumCooldown {
        return None;
      }
      if v.magnitude < velocityThreshold {
        return None;
      }
      var drumType := ClassifyDrumGesture(v, lms, handedness, sqrt);
      if drumType.None? {
        return None;
      }
      hit := Some(DrumHit(drumType.value, handId, v.magnitude, NormalizeDrumVelocity(v.magnitude), now));
      lastGestureTime := now;
      ghost var previous := hits;
      hits := hits + [hit.value];
      forall i | 0 < i < |hits|
        ensures HitGap(hits, i) >= DrumCooldown
      {
        if i < |previous| {
          assert HitGap(hits, i) == HitGap(previous, i);
        }
      }
    }

    method EnableDrums()
      modifies this`drumEnabled
      ensures drumEnabled
    {
      drumEnabled := true;
    }

    method DisableDrums()
      modifies this`drumEnabled
      ensures !drumEnabled
    {
      drumEnabled := false;
    }

    method ToggleDrums()
      modifies this`drumEnabled
      ensures drumEnabled == !old(drumEnabled)
    {
      if drumEnabled {
        DisableDrums();
      } else {
        EnableDrums();
      }
    }

    method SetDrumSensitivity(sensitivity: real)
      requires Valid()
      modifies this`velocityThreshold
      ensures Valid()
      ensures velocityThreshold == Clamp(sensitivity, 0.01, 0.2)
    {
      velocityThreshold := Max(0.01, Min(0.2, sensitivity));
    }

    method SetSmoothingFactor(factor: real)
      requires Valid()
      modifies this`smoothingFactor
      ensures Valid()
      ensures smoothingFactor == Clamp(factor, 0.01, 1.0)
    {
      smoothingFactor := Max(0.01, Min(1.0, factor));
    }

    /** clearGestureHistory: forgets every tracked hand and restarts the cooldown clock. */
    method ClearGestureHistory()
      requires Valid()
      modifies this`lastHandPositions, this`handVelocities, this`lastGestureTime, this`hits
      ensures Valid()
      ensures State() == Tracker(map[], map[], 0) && hits == []
    {
      lastHandPositions := map[];
      handVelocities := map[];
      lastGestureTime := 0;
      hits := [];
    }
  }
}
