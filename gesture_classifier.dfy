/** The static gesture classifier of `GestureRecognizer`: which fingers are
    extended, the eight gesture detectors, and the choice of the most
    confident detection above the confidence threshold. Everything here is a
    function of one hand's landmarks, except the counting loop, which is a
    method proved equal to its specification function. */
module GestureClassifier {
  import opened Common
  import opened Hands

  datatype FingerName = Thumb | Index | Middle | Ring | Pinky

  /** The order in which `Object.keys(fingers)` visits the fingers. */
  const FingerOrder: seq<FingerName> := [Thumb, Index, Middle, Ring, Pinky]

  const AllFingers: set<FingerName> := {Thumb, Index, Middle, Ring, Pinky}

  /** The two joints of a finger the classifier reads; either may be
      `undefined` when the landmark list is short. */
  datatype Finger = Finger(tip: Option<Point>, mcp: Option<Point>)

  function TipIndex(f: FingerName): nat
  {
    match f
    case Thumb => 4
    case Index => 8
    case Middle => 12
    case Ring => 16
    case Pinky => 20
  }

  function McpIndex(f: FingerName): nat
  {
    match f
    case Thumb => 2
    case Index => 5
    case Middle => 9
    case Ring => 13
    case Pinky => 17
  }

  /** The tip and MCP entries of `getFingerPositions(landmarks)` for one finger. */
  function FingerOf(lms: seq<Point>, f: FingerName): Finger
  {
    Finger(LandmarkAt(lms, TipIndex(f)), LandmarkAt(lms, McpIndex(f)))
  }

  /** A finger is extended when both joints are present and the tip lies more
      than 0.02 above (smaller y than) the MCP joint. */
  function IsFingerExtended(finger: Finger): (r: bool)
    ensures r <==> finger.tip.Some? && finger.mcp.Some?
                   && finger.tip.value.y < finger.mcp.value.y - 0.02
    ensures finger.tip.None? || finger.mcp.None? ==> !r
  {
    if finger.tip.None? || finger.mcp.None? then false
    else
      var tipToMcpDistance := Abs(finger.tip.value.y - finger.mcp.value.y);
      var isExtended := finger.tip.value.y < finger.mcp.value.y;
      isExtended && tipToMcpDistance > 0.02
  }

  predicate Extended(lms: seq<Point>, f: FingerName)
  {
    IsFingerExtended(FingerOf(lms, f))
  }

  /** How many of `names`, outside `excluded`, are extended (counted from the back). */
  function CountAmong(lms: seq<Point>, names: seq<FingerName>, excluded: set<FingerName>): (r: nat)
    ensures r <= |names|
  {
    if names == [] then 0
    else
      var last := names[|names| - 1];
      CountAmong(lms, names[..|names| - 1], excluded)
        + (if last !in excluded && Extended(lms, last) then 1 else 0)
  }

  /** The value `countExtendedFingers(fingers, excluded)` returns. */
  function ExtendedCount(lms: seq<Point>, excluded: set<FingerName>): nat
  {
    CountAmong(lms, FingerOrder, excluded)
  }

  /** countExtendedFingers: the loop over the five fingers. */
  method CountExtendedFingers(lms: seq<Point>, excluded: set<FingerName>) returns (count: nat)
    ensures count == ExtendedCount(lms, excluded)
    ensures count <= 5
  {
    count := 0;
    var i := 0;
    while i < |FingerOrder|
      invariant 0 <= i <= |FingerOrder|
      invariant count == CountAmong(lms, FingerOrder[..i], excluded)
    {
      var name := FingerOrder[i];
      if name !in excluded && IsFingerExtended(FingerOf(lms, name)) {
        count := count + 1;
      }
      assert FingerOrder[..i + 1][..i] == FingerOrder[..i];
      i := i + 1;
    }
    assert FingerOrder[..|FingerOrder|] == FingerOrder;
  }

  /** Counting over a duplicate-free list of fingers gives the size of the set
      of listed, non-excluded, extended fingers. */
  lemma {:induction false} CountAmongIsCardinality(lms: seq<Point>, names: seq<FingerName>, excluded: set<FingerName>)
    requires forall i, j :: 0 <= i < j < |names| ==> names[i] != names[j]
    ensures CountAmong(lms, names, excluded) == |ExtendedAmong(lms, names, excluded)|
  {
    if names != [] {
      var init, last := names[..|names| - 1], names[|names| - 1];
      CountAmongIsCardinality(lms, init, excluded);
      assert names == init + [last];
      ExtendedAmongSnoc(lms, init, last, excluded);
      assert last !in ExtendedAmong(lms, init, excluded);
    }
  }

  /** The listed, non-excluded, extended fingers. */
  ghost function ExtendedAmong(lms: seq<Point>, names: seq<FingerName>, excluded: set<FingerName>): set<FingerName>
  {
    set f | f in names && f !in excluded && Extended(lms, f)
  }

  lemma ExtendedAmongSnoc(lms: seq<Point>, init: seq<FingerName>, last: FingerName, excluded: set<FingerName>)
    ensures ExtendedAmong(lms, init + [last], excluded)
         == ExtendedAmong(lms, init, excluded) + (if last !in excluded && Extended(lms, last) then {last} else {})
  {
    forall f
      ensures f in init + [last] <==> f in init || f == last
    {
    }
  }

  /** The count is the number of extended fingers outside the exclusion, so it
      never exceeds the number of fingers left after the exclusion. */
  lemma ExtendedCountBounds(lms: seq<Point>, excluded: set<FingerName>)
    ensures ExtendedCount(lms, excluded)
         == |set f | f in AllFingers && f !in excluded && Extended(lms, f)|
    ensures ExtendedCount(lms, excluded) <= 5 - |excluded|
  {
    CountAmongIsCardinality(lms, FingerOrder, excluded);
    var s := set f | f in FingerOrder && f !in excluded && Extended(lms, f);
    assert s == set f | f in AllFingers && f !in excluded && Extended(lms, f);
    forall f: FingerName
      ensures f in AllFingers
    {
      match f
      case Thumb =>
      case Index =>
      case Middle =>
      case Ring =>
      case Pinky =>
    }
    assert excluded <= AllFingers;
    assert |AllFingers| == 5;
    assert s <= AllFingers - excluded;
    SubsetCardinality(s, AllFingers - excluded);
    assert |AllFingers - excluded| == 5 - |excluded|;
  }

  function Ind(b: bool): nat
  {
    if b then 1 else 0
  }

  /** The count written out finger by finger. */
  lemma ExtendedCountExpanded(lms: seq<Point>, excluded: set<FingerName>)
    ensures ExtendedCount(lms, excluded)
         == Ind(Thumb !in excluded && Extended(lms, Thumb))
          + Ind(Index !in excluded && Extended(lms, Index))
          + Ind(Middle !in excluded && Extended(lms, Middle))
          + Ind(Ring !in excluded && Extended(lms, Ring))
          + Ind(Pinky !in excluded && Extended(lms, Pinky))
  {
    var e := excluded;
    assert FingerOrder[..4] == [Thumb, Index, Middle, Ring];
    assert [Thumb, Index, Middle, Ring][..3] == [Thumb, Index, Middle];
    assert [Thumb, Index, Middle][..2] == [Thumb, Index];
    assert [Thumb, Index][..1] == [Thumb];
    assert [Thumb][..0] == [];
    assert CountAmong(lms, [Thumb], e) == Ind(Thumb !in e && Extended(lms, Thumb));
    assert CountAmong(lms, [Thumb, Index], e)
        == CountAmong(lms, [Thumb], e) + Ind(Index !in e && Extended(lms, Index));
    assert CountAmong(lms, [Thumb, Index, Middle], e)
        == CountAmong(lms, [Thumb, Index], e) + Ind(Middle !in e && Extended(lms, Middle));
    assert CountAmong(lms, [Thumb, Index, Middle, Ring], e)
        == CountAmong(lms, [Thumb, Index, Middle], e) + Ind(Ring !in e && Extended(lms, Ring));
    assert CountAmong(lms, FingerOrder, e)
        == CountAmong(lms, [Thumb, Index, Middle, Ring], e) + Ind(Pinky !in e && Extended(lms, Pinky));
  }

  lemma SubsetCardinality<T>(a: set<T>, b: set<T>)
    requires a <= b
    ensures |a| <= |b|
  {
    assert b == a + (b - a);
  }

  // ---------------------------------------------------------------------------
  // Directions

  datatype ThumbDirection = ThumbUp | ThumbDown | ThumbNeutral | ThumbUnknown

  datatype PointingDirection = PointLeft | PointRight | PointForward | PointUnknown

  function GetThumbDirection(thumb: Finger): ThumbDirection
  {
    if thumb.tip.None? || thumb.mcp.None? then ThumbUnknown
    else
      var yDiff := thumb.tip.value.y - thumb.mcp.value.y;
      if yDiff < -0.05 then ThumbUp
      else if yDiff > 0.05 then ThumbDown
      else ThumbNeutral
  }

  function GetPointingDirection(index: Finger): PointingDirection
  {
    if index.tip.None? || index.mcp.None? then PointUnknown
    else
      var xDiff := index.tip.value.x - index.mcp.value.x;
      if xDiff < -0.1 then PointLeft
      else if xDiff > 0.1 then PointRight
      else PointForward
  }

  /** An extended thumb has its tip above its MCP joint, so its direction is
      never "down": the direction test the thumbs-down detector applies after
      the extension test cannot succeed. */
  lemma ExtendedThumbNeverPointsDown(thumb: Finger)
    requires IsFingerExtended(thumb)
    ensures GetThumbDirection(thumb) != ThumbDown
    ensures thumb.tip.value.y < thumb.mcp.value.y - 0.05 <==> GetThumbDirection(thumb) == ThumbUp
  {
  }

  // ---------------------------------------------------------------------------
  // Distance (calculateDistance)

  function DistanceSquared2D(p: Point, q: Point): (r: real)
    ensures r >= 0.0
  {
    (p.x - q.x) * (p.x - q.x) + (p.y - q.y) * (p.y - q.y)
  }

  /** calculateDistance, with the square root supplied by the caller. */
  function CalculateDistance(p: Point, q: Point, sqrt: real -> real): real
  {
    sqrt(DistanceSquared2D(p, q))
  }

  /** Comparing a square root with 0.05 is comparing its argument with 0.0025,
      which is how the OK-sign detector is written in this model. */
  lemma {:induction false} DistanceBelowIffSquareBelow(p: Point, q: Point, sqrt: real -> real, bound: real)
    requires bound >= 0.0
    requires var d := CalculateDistance(p, q, sqrt); d >= 0.0 && d * d == DistanceSquared2D(p, q)
    ensures CalculateDistance(p, q, sqrt) < bound <==> DistanceSquared2D(p, q) < bound * bound
  {
    var d := CalculateDistance(p, q, sqrt);
    if d < bound {
      SquareStrictlyMonotone(d, bound);
    } else {
      SquareMonotone(bound, d);
    }
  }

  lemma SquareStrictlyMonotone(a: real, b: real)
    requires 0.0 <= a < b
    ensures a * a < b * b
  {
    var e := b - a;
    assert b * b == a * a + 2.0 * a * e + e * e;
    assert e * e > 0.0;
    assert a * e >= 0.0;
  }

  lemma SquareMonotone(a: real, b: real)
    requires 0.0 <= a <= b
    ensures a * a <= b * b
  {
  }

  // ---------------------------------------------------------------------------
  // The eight detectors

  datatype Candidate = Candidate(name: string, action: string, confidence: real, description: string)

  function DetectOpenPalm(lms: seq<Point>): Option<Candidate>
  {
    var extendedFingers := ExtendedCount(lms, {});
    if extendedFingers >= 4 then
      Some(Candidate("open_palm", "play_pause", Min(1.0, extendedFingers as real / 5.0), "Open Palm - Play/Pause"))
    else None
  }

  function DetectClosedFist(lms: seq<Point>): Option<Candidate>
  {
    var extendedFingers := ExtendedCount(lms, {});
    if extendedFingers <= 1 then
      Some(Candidate("closed_fist", "stop", 1.0 - extendedFingers as real / 5.0, "Closed Fist - Stop"))
    else None
  }

  function DetectThumbsUp(lms: seq<Point>): Option<Candidate>
  {
    var thumb := FingerOf(lms, Thumb);
    if IsFingerExtended(thumb) && ExtendedCount(lms, {Thumb}) == 0 && GetThumbDirection(thumb) == ThumbUp then
      Some(Candidate("thumbs_up", "volume_up", 0.9, "Thumbs Up - Volume Up"))
    else None
  }

  function DetectThumbsDown(lms: seq<Point>): Option<Candidate>
  {
    var thumb := FingerOf(lms, Thumb);
    if IsFingerExtended(thumb) && ExtendedCount(lms, {Thumb}) == 0 && GetThumbDirection(thumb) == ThumbDown then
      Some(Candidate("thumbs_down", "volume_down", 0.9, "Thumbs Down - Volume Down"))
    else None
  }

  function DetectPointingLeft(lms: seq<Point>): Option<Candidate>
  {
    var index := FingerOf(lms, Index);
    if IsFingerExtended(index) && ExtendedCount(lms, {Index}) <= 1 && GetPointingDirection(index) == PointLeft then
      Some(Candidate("pointing_left", "previous", 0.85, "Point Left - Previous Track"))
    else None
  }

  function DetectPointingRight(lms: seq<Point>): Option<Candidate>
  {
    var index := FingerOf(lms, Index);
    if IsFingerExtended(index) && ExtendedCount(lms, {Index}) <= 1 && GetPointingDirection(index) == PointRight then
      Some(Candidate("pointing_right", "next", 0.85, "Point Right - Next Track"))
    else None
  }

  function DetectPeaceSign(lms: seq<Point>): Option<Candidate>
  {
    if Extended(lms, Index) && Extended(lms, Middle) && ExtendedCount(lms, {Index, Middle}) == 0 then
      Some(Candidate("peace_sign", "toggle_visualization", 0.8, "Peace Sign - Toggle Visualization"))
    else None
  }

  /** The OK sign reads the thumb and index tips unconditionally, so it needs
      landmark 8 to exist (the caller has already checked 18 landmarks). */
  function DetectOkSign(lms: seq<Point>): Option<Candidate>
    requires |lms| > 8
  {
    var closeTips := DistanceSquared2D(lms[TipIndex(Thumb)], lms[TipIndex(Index)]) < 0.05 * 0.05;
    if closeTips && ExtendedCount(lms, {Thumb, Index}) >= 2 then
      Some(Candidate("ok_sign", "confirm", 0.75, "OK Sign - Confirm"))
    else None
  }

  /** The `gestures` array of analyzeHandGesture, in evaluation order. */
  function Detections(lms: seq<Point>): (ds: seq<Option<Candidate>>)
    requires |lms| > 8
    ensures |ds| == 8
  {
    [DetectOpenPalm(lms), DetectClosedFist(lms), DetectThumbsUp(lms), DetectThumbsDown(lms),
     DetectPointingLeft(lms), DetectPointingRight(lms), DetectPeaceSign(lms), DetectOkSign(lms)]
  }

  /** The (name, action, description) triples the detectors can produce. */
  predicate IsKnownGesture(c: Candidate)
  {
    || (c.name, c.action, c.description) == ("open_palm", "play_pause", "Open Palm - Play/Pause")
    || (c.name, c.action, c.description) == ("closed_fist", "stop", "Closed Fist - Stop")
    || (c.name, c.action, c.description) == ("thumbs_up", "volume_up", "Thumbs Up - Volume Up")
    || (c.name, c.action, c.description) == ("thumbs_down", "volume_down", "Thumbs Down - Volume Down")
    || (c.name, c.action, c.description) == ("pointing_left", "previous", "Point Left - Previous Track")
    || (c.name, c.action, c.description) == ("pointing_right", "next", "Point Right - Next Track")
    || (c.name, c.action, c.description) == ("peace_sign", "toggle_visualization", "Peace Sign - Toggle Visualization")
    || (c.name, c.action, c.description) == ("ok_sign", "confirm", "OK Sign - Confirm")
  }

  /** Every detector reports one of the eight known gestures with a
      confidence in [0, 1]. */
  lemma DetectionsWellFormed(lms: seq<Point>)
    requires |lms| > 8
    ensures forall d :: d in Detections(lms) && d.Some? ==>
              IsKnownGesture(d.value) && 0.0 <= d.value.confidence <= 1.0
  {
    ExtendedCountBounds(lms, {});
  }

  /** Open palm fires exactly when at least four fingers are extended, with
      confidence count/5; closed fist exactly when at most one is, with
      confidence 1 - count/5; so the two never fire together. */
  lemma {:induction false} OpenPalmAndClosedFist(lms: seq<Point>)
    ensures DetectOpenPalm(lms).Some? <==> ExtendedCount(lms, {}) >= 4
    ensures DetectOpenPalm(lms).Some? ==> DetectOpenPalm(lms).value.confidence == ExtendedCount(lms, {}) as real / 5.0
    ensures DetectClosedFist(lms).Some? <==> ExtendedCount(lms, {}) <= 1
    ensures DetectClosedFist(lms).Some? ==> DetectClosedFist(lms).value.confidence == 1.0 - ExtendedCount(lms, {}) as real / 5.0
    ensures DetectOpenPalm(lms).None? || DetectClosedFist(lms).None?
  {
    ExtendedCountBounds(lms, {});
  }

  /** Both thumb detectors demand an extended thumb and no other extended
      finger. Since an extended thumb never points down, thumbs-down never
      fires, and so the two thumb gestures are never produced together. */
  lemma ThumbDetectors(lms: seq<Point>)
    ensures DetectThumbsUp(lms).Some? ==> Extended(lms, Thumb) && ExtendedCount(lms, {Thumb}) == 0
    ensures DetectThumbsDown(lms) == None
    ensures DetectThumbsUp(lms).None? || DetectThumbsDown(lms).None?
  {
    var thumb := FingerOf(lms, Thumb);
    if IsFingerExtended(thumb) {
      ExtendedThumbNeverPointsDown(thumb);
    }
  }

  /** The thumb test the thumbs-down detector evidently intends: the thumb
      is stretched out when its tip is more than 0.02 away from its MCP joint
      vertically, in either direction (the source already measures that
      distance with an absolute value). */
  function IsThumbStretched(thumb: Finger): (r: bool)
    ensures r <==> thumb.tip.Some? && thumb.mcp.Some? && Abs(thumb.tip.value.y - thumb.mcp.value.y) > 0.02
    ensures IsFingerExtended(thumb) ==> r
  {
    thumb.tip.Some? && thumb.mcp.Some? && Abs(thumb.tip.value.y - thumb.mcp.value.y) > 0.02
  }

  /** detectThumbsDown with the direction-agnostic thumb test. */
  function DetectThumbsDownCorrected(lms: seq<Point>): Option<Candidate>
  {
    var thumb := FingerOf(lms, Thumb);
    if IsThumbStretched(thumb) && ExtendedCount(lms, {Thumb}) == 0 && GetThumbDirection(thumb) == ThumbDown then
      Some(Candidate("thumbs_down", "volume_down", 0.9, "Thumbs Down - Volume Down"))
    else None
  }

  /** The corrected detector reports thumbs-down exactly for a thumb pointing
      down (tip more than 0.05 below the MCP) with the other four fingers
      not extended. */
  lemma ThumbsDownCorrectedFires(lms: seq<Point>)
    ensures DetectThumbsDownCorrected(lms).Some? <==>
              GetThumbDirection(FingerOf(lms, Thumb)) == ThumbDown && ExtendedCount(lms, {Thumb}) == 0
    ensures DetectThumbsDownCorrected(lms).Some? ==>
              DetectThumbsDownCorrected(lms).value == Candidate("thumbs_down", "volume_down", 0.9, "Thumbs Down - Volume Down")
  {
  }

  /** A hand whose thumb tip hangs 0.1 below its MCP joint and whose other
      joints all lie at the origin, so no other finger is extended. */
  function DownThumbHand(): (lms: seq<Point>)
    ensures |lms| == 21
  {
    seq(21, i => if i == TipIndex(Thumb) then Point(0.0, 0.1, 0.0) else Point(0.0, 0.0, 0.0))
  }

  /** On the down-pointing thumb, the detector as written reports nothing,
      while the corrected one reports thumbs-down. */
  lemma DownThumbShowsTheDifference()
    ensures DetectThumbsDown(DownThumbHand()) == None
    ensures DetectThumbsDownCorrected(DownThumbHand()).Some?
  {
    var lms := DownThumbHand();
    assert lms[4] == Point(0.0, 0.1, 0.0) && lms[2] == Point(0.0, 0.0, 0.0);
    assert lms[8] == lms[5] && lms[12] == lms[9] && lms[16] == lms[13] && lms[20] == lms[17];
    ExtendedCountExpanded(lms, {Thumb});
    ThumbDetectors(lms);
  }

  /** Even the corrected detector loses inside analyzeHandGesture: a thumb
      pointing down is not extended by the general finger test, so no finger
      counts as extended and the closed fist fires with confidence 1.0,
      above thumbs-down's 0.9. */
  lemma ClosedFistOutranksCorrectedThumbsDown(lms: seq<Point>)
    requires DetectThumbsDownCorrected(lms).Some?
    ensures DetectClosedFist(lms) == Some(Candidate("closed_fist", "stop", 1.0, "Closed Fist - Stop"))
  {
    ExtendedCountExpanded(lms, {});
    ExtendedCountExpanded(lms, {Thumb});
  }

  /** The two pointing detectors never fire together, and a peace sign
      whose index tip lies more than 0.1 to one side of its MCP joint also
      satisfies the pointing detector for that side (its one other extended
      finger, the middle, is within the pointing detector's allowance). */
  lemma PointingAndPeace(lms: seq<Point>)
    ensures DetectPointingLeft(lms).None? || DetectPointingRight(lms).None?
    ensures DetectPeaceSign(lms).Some? && GetPointingDirection(FingerOf(lms, Index)) == PointLeft
            ==> DetectPointingLeft(lms).Some?
    ensures DetectPeaceSign(lms).Some? && GetPointingDirection(FingerOf(lms, Index)) == PointRight
            ==> DetectPointingRight(lms).Some?
  {
    ExtendedCountExpanded(lms, {Index});
    ExtendedCountExpanded(lms, {Index, Middle});
  }

  // ---------------------------------------------------------------------------
  // Choosing the detection: filter by threshold, stable sort by confidence

  /** `gestures.filter(g => g && g.confidence > threshold)`. */
  function Survivors(ds: seq<Option<Candidate>>, threshold: real): (r: seq<Candidate>)
    ensures |r| <= |ds|
    ensures forall c :: c in r <==> Some(c) in ds && c.confidence > threshold
  {
    if ds == [] then []
    else
      var rest := Survivors(ds[1..], threshold);
      assert forall d :: d in ds[1..] ==> d in ds;
      if ds[0].Some? && ds[0].value.confidence > threshold then [ds[0].value] + rest else rest
  }

  /** The filter keeps detection order: filtering a concatenation filters
      each part in turn. */
  lemma {:induction false} SurvivorsAppend(a: seq<Option<Candidate>>, b: seq<Option<Candidate>>, threshold: real)
    ensures Survivors(a + b, threshold) == Survivors(a, threshold) + Survivors(b, threshold)
  {
    if a != [] {
      assert (a + b)[0] == a[0];
      assert (a + b)[1..] == a[1..] + b;
      SurvivorsAppend(a[1..], b, threshold);
    } else {
      assert a + b == b;
    }
  }

  predicate SortedDesc(s: seq<Candidate>)
  {
    forall i, j :: 0 <= i < j < |s| ==> s[i].confidence >= s[j].confidence
  }

  /** Inserts `c` into a list sorted by descending confidence, before every
      element of equal confidence (so earlier elements stay first). */
  function InsertDesc(c: Candidate, s: seq<Candidate>): (r: seq<Candidate>)
    requires SortedDesc(s)
    ensures SortedDesc(r)
    ensures multiset(r) == multiset(s) + multiset{c}
    ensures r[0] == if s == [] || c.confidence >= s[0].confidence then c else s[0]
  {
    if s == [] || c.confidence >= s[0].confidence then
      SortedCons(c, s);
      [c] + s
    else
      var tail := InsertDesc(c, s[1..]);
      InsertBehindHead(c, s, tail);
      [s[0]] + tail
  }

  /** When `c` goes behind the head of `s`, putting the head back in front
      of the insertion into the rest keeps the order and the contents. */
  lemma InsertBehindHead(c: Candidate, s: seq<Candidate>, tail: seq<Candidate>)
    requires SortedDesc(s) && s != [] && c.confidence < s[0].confidence
    requires SortedDesc(tail) && multiset(tail) == multiset(s[1..]) + multiset{c}
    ensures SortedDesc([s[0]] + tail)
    ensures multiset([s[0]] + tail) == multiset(s) + multiset{c}
  {
    assert s == [s[0]] + s[1..];
    forall x | x in tail
      ensures x.confidence <= s[0].confidence
    {
      assert x in multiset(tail);
    }
    SortedCons(s[0], tail);
  }

  /** A candidate at least as confident as every element of a sorted list
      may go in front of it. */
  lemma SortedCons(c: Candidate, s: seq<Candidate>)
    requires SortedDesc(s)
    requires forall x | x in s :: x.confidence <= c.confidence
    ensures SortedDesc([c] + s)
  {
    var r := [c] + s;
    forall i, j | 0 <= i < j < |r|
      ensures r[i].confidence >= r[j].confidence
    {
      if i > 0 {
        assert r[i] == s[i - 1] && r[j] == s[j - 1];
      } else {
        assert r[j] in s;
      }
    }
  }

  /** `validGestures.sort((a, b) => b.confidence - a.confidence)`: a stable
      sort by descending confidence. */
  function SortByConfidence(cs: seq<Candidate>): (r: seq<Candidate>)
    ensures SortedDesc(r)
    ensures multiset(r) == multiset(cs)
    ensures |r| == |cs|
  {
    if cs == [] then []
    else
      assert cs == [cs[0]] + cs[1..];
      InsertDesc(cs[0], SortByConfidence(cs[1..]))
  }

  /** The index of the first candidate of greatest confidence. */
  function BestIndex(cs: seq<Candidate>): (k: nat)
    requires cs != []
    ensures k < |cs|
    ensures forall j :: 0 <= j < |cs| ==> cs[j].confidence <= cs[k].confidence
    ensures forall j :: 0 <= j < k ==> cs[j].confidence < cs[k].confidence
  {
    if |cs| == 1 then 0
    else
      var k := BestIndex(cs[1..]) + 1;
      if cs[0].confidence >= cs[k].confidence then 0 else k
  }

  /** The head of the stable descending sort is the first candidate of
      greatest confidence: ties go to the detector evaluated first. */
  lemma {:induction false} SortHeadIsFirstBest(cs: seq<Candidate>)
    requires cs != []
    ensures SortByConfidence(cs)[0] == cs[BestIndex(cs)]
  {
    if |cs| > 1 {
      SortHeadIsFirstBest(cs[1..]);
    }
  }

  /** analyzeHandGesture. getPalmCenter reads `landmarks[17].x`, which throws
      when fewer than 18 landmarks are present. */
  function AnalyzeHandGesture(lms: seq<Point>, confidenceThreshold: real): Result<Option<Candidate>>
  {
    if |lms| < 18 then TypeError
    else
      var validGestures := Survivors(Detections(lms), confidenceThreshold);
      if |validGestures| > 0 then Ok(Some(SortByConfidence(validGestures)[0])) else Ok(None)
  }

  /** The classifier yields nothing exactly when no detection's confidence
      exceeds the threshold; otherwise it yields a known gesture whose
      confidence exceeds the threshold and is at least that of every other
      surviving detection, the earliest such detection on a tie. */
  lemma AnalyzeHandGestureSpec(lms: seq<Point>, threshold: real)
    requires |lms| >= 18
    ensures AnalyzeHandGesture(lms, threshold).Ok?
    ensures AnalyzeHandGesture(lms, threshold).value.None?
        <==> forall d :: d in Detections(lms) ==> d.None? || d.value.confidence <= threshold
    ensures AnalyzeHandGesture(lms, threshold).value.Some? ==>
              var c := AnalyzeHandGesture(lms, threshold).value.value;
              && Some(c) in Detections(lms)
              && IsKnownGesture(c)
              && threshold < c.confidence <= 1.0
              && (forall d :: (d in Detections(lms) && d.Some? && d.value.confidence > threshold)
                   ==> d.value.confidence <= c.confidence)
    ensures AnalyzeHandGesture(lms, threshold).value.Some? ==>
              var valid := Survivors(Detections(lms), threshold);
              AnalyzeHandGesture(lms, threshold).value.value == valid[BestIndex(valid)]
  {
    var ds := Detections(lms);
    var valid := Survivors(ds, threshold);
    DetectionsWellFormed(lms);
    if |valid| > 0 {
      SortHeadIsFirstBest(valid);
      var k := BestIndex(valid);
      assert valid[k] in valid;
      forall d | d in ds && d.Some? && d.value.confidence > threshold
        ensures d.value.confidence <= valid[k].confidence
      {
        assert d.value in valid;
      }
    } else {
      forall d | d in ds && d.Some?
        ensures d.value.confidence <= threshold
      {
        assert d.value !in valid;
      }
    }
  }

  /** With only the thumb extended and pointing up, the classifier reports
      thumbs-up (0.9) rather than the closed fist (0.8) that one extended
      finger also satisfies. */
  lemma ThumbsUpBeatsClosedFist(lms: seq<Point>, threshold: real)
    requires |lms| >= 21
    requires Extended(lms, Thumb)
    requires !Extended(lms, Index) && !Extended(lms, Middle) && !Extended(lms, Ring) && !Extended(lms, Pinky)
    requires lms[TipIndex(Thumb)].y < lms[McpIndex(Thumb)].y - 0.05
    requires threshold < 0.9
    ensures AnalyzeHandGesture(lms, threshold)
         == Ok(Some(Candidate("thumbs_up", "volume_up", 0.9, "Thumbs Up - Volume Up")))
  {
    ExtendedCountExpanded(lms, {});
    ExtendedCountExpanded(lms, {Thumb});
    ExtendedCountExpanded(lms, {Index});
    ExtendedCountExpanded(lms, {Thumb, Index});
    var up := Candidate("thumbs_up", "volume_up", 0.9, "Thumbs Up - Volume Up");
    var fist := Candidate("closed_fist", "stop", 0.8, "Closed Fist - Stop");
    var ds := Detections(lms);
    assert ds == [None, Some(fist), Some(up), None, None, None, None, None];
    AnalyzeHandGestureSpec(lms, threshold);
    assert Some(up) in ds;
  }

  /** A peace sign pointing left is classified as pointing left: the
      pointing detector (0.85) outranks the peace sign (0.8). */
  lemma PointingLeftBeatsPeaceSign(lms: seq<Point>, threshold: real)
    requires |lms| >= 21
    requires DetectPeaceSign(lms).Some?
    requires GetPointingDirection(FingerOf(lms, Index)) == PointLeft
    requires threshold < 0.85
    ensures AnalyzeHandGesture(lms, threshold)
         == Ok(Some(Candidate("pointing_left", "previous", 0.85, "Point Left - Previous Track")))
  {
    ExtendedCountExpanded(lms, {});
    ExtendedCountExpanded(lms, {Thumb});
    ExtendedCountExpanded(lms, {Index});
    ExtendedCountExpanded(lms, {Index, Middle});
    ExtendedCountExpanded(lms, {Thumb, Index});
    var left := Candidate("pointing_left", "previous", 0.85, "Point Left - Previous Track");
    var peace := Candidate("peace_sign", "toggle_visualization", 0.8, "Peace Sign - Toggle Visualization");
    var ds := Detections(lms);
    assert ds == [None, None, None, None, Some(left), None, Some(peace), None];
    AnalyzeHandGestureSpec(lms, threshold);
    assert Some(left) in ds;
  }

  /** A hand with at least four extended fingers is classified as the open
      palm with confidence count/5: no other detector reaches 0.8 then (the
      pointing, peace and thumb detectors cannot fire, the closed fist needs
      at most one extended finger, and the OK sign scores 0.75). */
  lemma OpenPalmWins(lms: seq<Point>, threshold: real)
    requires |lms| >= 18
    requires ExtendedCount(lms, {}) >= 4
    requires threshold < ExtendedCount(lms, {}) as real / 5.0
    ensures AnalyzeHandGesture(lms, threshold)
         == Ok(Some(Candidate("open_palm", "play_pause", ExtendedCount(lms, {}) as real / 5.0, "Open Palm - Play/Pause")))
  {
    ExtendedCountBounds(lms, {});
    FourFingersSilenceOthers(lms);
    var palm := Candidate("open_palm", "play_pause", ExtendedCount(lms, {}) as real / 5.0, "Open Palm - Play/Pause");
    var ds := Detections(lms);
    assert ds[0] == Some(palm);
    assert forall i :: 1 <= i < |ds| && ds[i].Some? ==> ds[i].value.confidence < palm.confidence;
    FirstDetectionStrictlyBest(ds, threshold);
  }

  /** When the first detection survives and is more confident than every
      later one, the classifier's choice is that first detection. */
  lemma FirstDetectionStrictlyBest(ds: seq<Option<Candidate>>, threshold: real)
    requires ds != [] && ds[0].Some? && ds[0].value.confidence > threshold
    requires forall i :: 1 <= i < |ds| && ds[i].Some? ==> ds[i].value.confidence < ds[0].value.confidence
    ensures Survivors(ds, threshold) != []
    ensures SortByConfidence(Survivors(ds, threshold))[0] == ds[0].value
  {
    var rest := Survivors(ds[1..], threshold);
    forall c | c in rest
      ensures c.confidence < ds[0].value.confidence
    {
      assert Some(c) in ds[1..];
      var i :| 0 <= i < |ds[1..]| && ds[1..][i] == Some(c);
      assert ds[i + 1] == Some(c);
    }
    var valid := Survivors(ds, threshold);
    assert valid == [ds[0].value] + rest;
    assert valid[1..] == rest;
    StrictlyBestHeadWins(valid);
  }

  /** A first candidate more confident than every other one heads the sort. */
  lemma StrictlyBestHeadWins(cs: seq<Candidate>)
    requires cs != []
    requires forall c :: c in cs[1..] ==> c.confidence < cs[0].confidence
    ensures SortByConfidence(cs)[0] == cs[0]
  {
    SortHeadIsFirstBest(cs);
  }

  /** With four or more extended fingers, only the open palm and the OK sign
      (at 0.75) can fire. */
  lemma FourFingersSilenceOthers(lms: seq<Point>)
    requires |lms| >= 18
    requires ExtendedCount(lms, {}) >= 4
    ensures DetectClosedFist(lms) == None && DetectThumbsUp(lms) == None && DetectThumbsDown(lms) == None
    ensures DetectPointingLeft(lms) == None && DetectPointingRight(lms) == None && DetectPeaceSign(lms) == None
    ensures DetectOkSign(lms) == None || DetectOkSign(lms).value.confidence == 0.75
  {
    ExtendedCountExpanded(lms, {});
    ExtendedCountExpanded(lms, {Thumb});
    ExtendedCountExpanded(lms, {Index});
    ExtendedCountExpanded(lms, {Index, Middle});
  }
}
