/** The landmark conversion of `HandTracker` in `src/handTracking.ts`:
    `onResults` turns a MediaPipe result into the callback's argument, using
    the canvas size that `setCanvasSize` last set. */
module HandTracking {
  import opened Optional
  import opened Vectors
  import Seqs

  const DefaultCanvasWidth: real := 640.0
  const DefaultCanvasHeight: real := 480.0

  /** A MediaPipe landmark: normalised image coordinates for the 2D list,
      metres for the world list. */
  type Landmark = Vec3

  datatype Point2D = Point2D(x: real, y: real)

  /** The callback's argument when a hand is found. */
  datatype HandLandmarks = HandLandmarks(landmarks: seq<Point2D>, worldLandmarks: Option<seq<Vec3>>)

  /** The two fields of a MediaPipe `Results` that `onResults` reads, one
      landmark list per detected hand; either field may be absent. */
  datatype Results = Results(multiHandLandmarks: Option<seq<seq<Landmark>>>, multiHandWorldLandmarks: Option<seq<seq<Landmark>>>)

  /** The tracker state `onResults` depends on. */
  datatype Tracker = Tracker(hasCallback: bool, canvasWidth: real, canvasHeight: real)

  /** What one `onResults` call does: nothing, or one call of the callback
      with a hand or with `null` (`Delivered(None)`). */
  datatype Delivery = NotDelivered | Delivered(hand: Option<HandLandmarks>)

  /** A tracker as constructed: no callback yet, a 640 by 480 canvas. */
  function NewTracker(): (t: Tracker)
    ensures !t.hasCallback
    ensures t.canvasWidth == DefaultCanvasWidth && t.canvasHeight == DefaultCanvasHeight
  {
    Tracker(false, 640.0, 480.0)
  }

  /** `setCanvasSize`: both dimensions replaced, the callback untouched. */
  function SetCanvasSize(t: Tracker, width: real, height: real): (r: Tracker)
    ensures r.canvasWidth == width && r.canvasHeight == height
    ensures r.hasCallback == t.hasCallback
  {
    t.(canvasWidth := width, canvasHeight := height)
  }

  /** A normalised landmark on the canvas, mirrored horizontally. */
  function ToCanvas(lm: Landmark, width: real, height: real): Point2D
  {
    Point2D((1.0 - lm.x) * width, lm.y * height)
  }

  /** A world landmark mirrored: x and y negated, z kept. */
  function ToWorld(lm: Landmark): Vec3
  {
    Vec3(-lm.x, -lm.y, lm.z)
  }

  /** `results.multiHandLandmarks[0]` when the list is present and non-empty. */
  function FirstHand(res: Results): Option<seq<Landmark>>
  {
    match res.multiHandLandmarks
    case Some(hands) => if |hands| > 0 then Some(hands[0]) else None
    case None => None
  }

  /** `results.multiHandWorldLandmarks?.[0]`: absent when the list is absent
      or has no first entry. */
  function FirstWorld(res: Results): Option<seq<Landmark>>
  {
    match res.multiHandWorldLandmarks
    case Some(hands) => if |hands| > 0 then Some(hands[0]) else None
    case None => None
  }

  function OnResults(t: Tracker, res: Results): (r: Delivery)
    ensures !t.hasCallback ==> r == NotDelivered
    ensures t.hasCallback && FirstHand(res).None? ==> r == Delivered(None)
    ensures t.hasCallback && FirstHand(res).Some? ==> r.Delivered? && r.hand.Some?
    ensures r.Delivered? && r.hand.Some? ==>
      var hand := FirstHand(res).value;
      var out := r.hand.value;
      && |out.landmarks| == |hand|
      && (forall i :: 0 <= i < |hand| ==> out.landmarks[i] == ToCanvas(hand[i], t.canvasWidth, t.canvasHeight))
      && (out.worldLandmarks.Some? <==> FirstWorld(res).Some?)
      && (out.worldLandmarks.Some? ==>
            && |out.worldLandmarks.value| == |FirstWorld(res).value|
            && forall i :: 0 <= i < |FirstWorld(res).value| ==>
                 out.worldLandmarks.value[i] == ToWorld(FirstWorld(res).value[i]))
  {
    if !t.hasCallback then NotDelivered
    else match FirstHand(res)
      case None => Delivered(None)
      case Some(landmarks) =>
        var converted := Seqs.Map((lm: Landmark) => ToCanvas(lm, t.canvasWidth, t.canvasHeight), landmarks);
        var world := match FirstWorld(res)
          case None => None
          case Some(w) => Some(Seqs.Map(ToWorld, w));
        Delivered(Some(HandLandmarks(converted, world)))
  }

  /** `onResults` reports `null` exactly when no hand was detected. */
  lemma NullIffNoHand(t: Tracker, res: Results)
    requires t.hasCallback
    ensures OnResults(t, res) == Delivered(None) <==>
      res.multiHandLandmarks.None? || |res.multiHandLandmarks.value| == 0
  {
  }

  /** Only the first hand matters: results that agree on it convert alike. */
  lemma OnlyFirstHandUsed(t: Tracker, a: Results, b: Results)
    requires FirstHand(a) == FirstHand(b) && FirstWorld(a) == FirstWorld(b)
    ensures OnResults(t, a) == OnResults(t, b)
  {
  }

  lemma ProductNonNegative(a: real, b: real)
    requires a >= 0.0 && b >= 0.0
    ensures a * b >= 0.0
  {
  }

  lemma CancelFactor(a: real, b: real)
    requires b != 0.0
    ensures a * b / b == a
  {
    assert a * b / b == a * (b / b);
  }

  /** A landmark inside the normalised square lands inside the canvas. */
  lemma CanvasPointInBounds(lm: Landmark, width: real, height: real)
    requires 0.0 <= lm.x <= 1.0 && 0.0 <= lm.y <= 1.0
    requires width >= 0.0 && height >= 0.0
    ensures 0.0 <= ToCanvas(lm, width, height).x <= width
    ensures 0.0 <= ToCanvas(lm, width, height).y <= height
  {
    ProductNonNegative(1.0 - lm.x, width);
    ProductNonNegative(lm.x, width);
    assert (1.0 - lm.x) * width == width - lm.x * width;
    ProductNonNegative(lm.y, height);
    ProductNonNegative(1.0 - lm.y, height);
    assert lm.y * height == height - (1.0 - lm.y) * height;
  }

  /** The horizontal mirror: on a canvas of positive width, a landmark
      further right in the image lands further left on the canvas. */
  lemma CanvasMirrorsX(a: Landmark, b: Landmark, width: real, height: real)
    requires width > 0.0 && a.x < b.x
    ensures ToCanvas(a, width, height).x > ToCanvas(b, width, height).x
  {
    assert (1.0 - a.x) * width - (1.0 - b.x) * width == (b.x - a.x) * width;
  }

  /** The canvas mapping loses nothing on a non-degenerate canvas: the
      normalised coordinates come back from the canvas point. */
  lemma CanvasMappingInvertible(lm: Landmark, width: real, height: real)
    requires width != 0.0 && height != 0.0
    ensures 1.0 - ToCanvas(lm, width, height).x / width == lm.x
    ensures ToCanvas(lm, width, height).y / height == lm.y
  {
    var p := ToCanvas(lm, width, height);
    var a := 1.0 - lm.x;
    assert p.x == a * width;
    CancelFactor(a, width);
    assert p.x / width == a;
    CancelFactor(lm.y, height);
  }

  /** Mirroring a world landmark twice gives it back. */
  lemma WorldMirrorIsInvolution(lm: Landmark)
    ensures ToWorld(ToWorld(lm)) == lm
  {
  }

  /** After `setCanvasSize(w, h)` every converted landmark uses `w` and `h`,
      and the callback registration is untouched. */
  lemma CanvasSizeGovernsConversion(t: Tracker, width: real, height: real, res: Results, i: nat)
    requires t.hasCallback && FirstHand(res).Some? && i < |FirstHand(res).value|
    ensures var r := OnResults(SetCanvasSize(t, width, height), res);
      && r.Delivered? && r.hand.Some?
      && r.hand.value.landmarks[i] == ToCanvas(FirstHand(res).value[i], width, height)
  {
  }

  /** Before any `setCanvasSize`, conversions use the 640 by 480 default. */
  lemma DefaultCanvasIs640By480(res: Results, i: nat)
    requires FirstHand(res).Some? && i < |FirstHand(res).value|
    ensures var t := NewTracker().(hasCallback := true);
      var lm := FirstHand(res).value[i];
      OnResults(t, res).hand.value.landmarks[i] == Point2D((1.0 - lm.x) * 640.0, lm.y * 480.0)
  {
  }
}
