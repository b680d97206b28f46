/**
 * The overlay pose of `DetailView`: the committed offset, zoom and angle that
 * the drag, pinch and rotation gestures commit when they end, and the pose the
 * view renders while gestures are still in progress. `CGFloat` is modelled as
 * `real` and `Angle` as a `real` number of radians.
 */
module Overlay {

  /** `CGSize`. */
  datatype Size = Size(width: real, height: real) {
    function Plus(other: Size): Size
    {
      Size(width + other.width, height + other.height)
    }
  }

  const Zero: Size := Size(0.0, 0.0)

  /** Bounds of a committed drag: x in [-150, 150], y in [-150, 450]. */
  const MinX: real := -150.0
  const MaxX: real := 150.0
  const MinY: real := -150.0
  const MaxY: real := 450.0

  /** Bounds of a committed zoom. */
  const MinZoom: real := 0.5
  const MaxZoom: real := 2.5

  /** The constant opacity of the overlay image. */
  const OverlayOpacity: real := 0.4

  /** Swift's `min` and `max` on `CGFloat`. */
  function Min(a: real, b: real): real { if b < a then b else a }
  function Max(a: real, b: real): real { if b > a then b else a }

  /** `r` is `x` clamped into `[lo, hi]`. */
  ghost predicate IsClampOf(r: real, x: real, lo: real, hi: real)
  {
    || (x < lo && r == lo)
    || (lo <= x <= hi && r == x)
    || (hi < x && r == hi)
  }

  ghost predicate InDragBounds(p: Size)
  {
    MinX <= p.width <= MaxX && MinY <= p.height <= MaxY
  }

  /**
   * The position a drag commits: each axis is the old position plus the
   * translation, clamped into its own interval.
   */
  function DragCommit(position: Size, translation: Size): (p: Size)
    ensures InDragBounds(p)
    ensures IsClampOf(p.width, position.width + translation.width, MinX, MaxX)
    ensures IsClampOf(p.height, position.height + translation.height, MinY, MaxY)
    ensures InDragBounds(position.Plus(translation)) ==> p == position.Plus(translation)
  {
    var newX := position.width + translation.width;
    var newY := position.height + translation.height;
    Size(Max(Min(newX, MaxX), MinX), Max(Min(newY, MaxY), MinY))
  }

  /** The zoom a pinch commits: the old zoom times the pinch factor, clamped. */
  function ZoomCommit(finalZoom: real, value: real): (z: real)
    ensures MinZoom <= z <= MaxZoom
    ensures IsClampOf(z, finalZoom * value, MinZoom, MaxZoom)
  {
    var newZoom := finalZoom * value;
    Min(Max(newZoom, MinZoom), MaxZoom)
  }

  /** The in-progress gesture values (`@GestureState`), reset when a gesture ends. */
  datatype LiveGesture = LiveGesture(dragOffset: Size, currentZoom: real, rotationAngle: real)

  /** The values of the gesture state when no gesture is in progress. */
  const AtRest: LiveGesture := LiveGesture(Zero, 1.0, 0.0)

  /** What the view draws: opacity, scale, rotation and offset of the overlay. */
  datatype Placement = Placement(opacity: real, scale: real, rotation: real, offset: Size)

  /** The rendered pose: committed values composed with the live ones, unclamped. */
  function Render(position: Size, finalZoom: real, finalAngle: real, live: LiveGesture): Placement
  {
    Placement(OverlayOpacity, finalZoom * live.currentZoom, finalAngle + live.rotationAngle,
              position.Plus(live.dragOffset))
  }

  /** With no gesture in progress the view shows exactly the committed pose. */
  lemma RenderAtRest(position: Size, finalZoom: real, finalAngle: real)
    ensures Render(position, finalZoom, finalAngle, AtRest) == Placement(OverlayOpacity, finalZoom, finalAngle, position)
  {
  }

  /**
   * The live offset is not clamped: at the moment a drag is released the view
   * shows the unclamped sum, and the committed position shown after release is
   * the same place exactly when that sum is inside the drag bounds.
   */
  lemma DragReleaseContinuous(position: Size, finalZoom: real, finalAngle: real, translation: Size)
    ensures Render(position, finalZoom, finalAngle, LiveGesture(translation, 1.0, 0.0)).offset == position.Plus(translation)
    ensures Render(DragCommit(position, translation), finalZoom, finalAngle, AtRest).offset
            == Render(position, finalZoom, finalAngle, LiveGesture(translation, 1.0, 0.0)).offset
            <==> InDragBounds(position.Plus(translation))
  {
  }

  /** Likewise for pinching: the zoom does not jump at release iff the live scale is within bounds. */
  lemma PinchReleaseContinuous(position: Size, finalZoom: real, finalAngle: real, value: real)
    ensures Render(position, finalZoom, finalAngle, LiveGesture(Zero, value, 0.0)).scale == finalZoom * value
    ensures Render(position, ZoomCommit(finalZoom, value), finalAngle, AtRest).scale
            == Render(position, finalZoom, finalAngle, LiveGesture(Zero, value, 0.0)).scale
            <==> MinZoom <= finalZoom * value <= MaxZoom
  {
  }

  /** The committed state of one `DetailView`. */
  class DetailViewState {
    var position: Size
    var finalZoom: real
    var finalAngle: real

    /** Committed offset and zoom lie within their bounds; the angle is unbounded. */
    ghost predicate Valid()
      reads this
    {
      InDragBounds(position) && MinZoom <= finalZoom <= MaxZoom
    }

    constructor ()
      ensures position == Zero && finalZoom == 1.0 && finalAngle == 0.0
      ensures Valid()
    {
      position := Zero;
      finalZoom := 1.0;
      finalAngle := 0.0;
    }

    /** What the view draws for the given in-progress gesture values. */
    function Rendered(live: LiveGesture): Placement
      reads this
    {
      Render(position, finalZoom, finalAngle, live)
    }

    /** The drag gesture's `onEnded`: commits the position, leaves zoom and angle alone. */
    method OnDragEnded(translation: Size)
      modifies this
      ensures position == DragCommit(old(position), translation)
      ensures finalZoom == old(finalZoom) && finalAngle == old(finalAngle)
      ensures InDragBounds(position) && (old(Valid()) ==> Valid())
    {
      var newX := position.width + translation.width;
      var newY := position.height + translation.height;
      position := Size(Max(Min(newX, MaxX), MinX), position.height);
      position := Size(position.width, Max(Min(newY, MaxY), MinY));
    }

    /** The pinch gesture's `onEnded`: commits the zoom, leaves position and angle alone. */
    method OnMagnificationEnded(value: real)
      modifies this
      ensures finalZoom == ZoomCommit(old(finalZoom), value)
      ensures position == old(position) && finalAngle == old(finalAngle)
      ensures MinZoom <= finalZoom <= MaxZoom && (old(Valid()) ==> Valid())
    {
      var newZoom := finalZoom * value;
      finalZoom := Min(Max(newZoom, MinZoom), MaxZoom);
    }

    /** The rotation gesture's `onEnded`: adds the delta to the angle, unclamped. */
    method OnRotationEnded(value: real)
      modifies this
      ensures finalAngle == old(finalAngle) + value
      ensures position == old(position) && finalZoom == old(finalZoom)
      ensures old(Valid()) ==> Valid()
    {
      finalAngle := finalAngle + value;
    }
  }

  /**
   * A drag and a pinch that end together commit the same pose whichever of
   * the two ends first, from any pair of equal starting states.
   */
  method CommitOrderDoesNotMatter(a: DetailViewState, b: DetailViewState, translation: Size, factor: real)
    requires a != b
    requires a.position == b.position && a.finalZoom == b.finalZoom && a.finalAngle == b.finalAngle
    modifies a, b
    ensures a.position == b.position == DragCommit(old(a.position), translation)
    ensures a.finalZoom == b.finalZoom == ZoomCommit(old(a.finalZoom), factor)
    ensures a.finalAngle == b.finalAngle == old(a.finalAngle)
  {
    a.OnDragEnded(translation);
    a.OnMagnificationEnded(factor);
    b.OnMagnificationEnded(factor);
    b.OnDragEnded(translation);
  }
}
