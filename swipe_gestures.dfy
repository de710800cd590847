/** Horizontal swipe detection: a touch that ends far enough to the left or
    right of where it started, and moved more sideways than up or down,
    triggers the left or right callback. */
module SwipeGestures {

  /** What a finished touch amounts to. */
  datatype Swipe = SwipeLeft | SwipeRight | NoSwipe

  /** The threshold used when the options give none. */
  const DefaultThreshold: real := 50.0

  function Abs(x: real): (r: real)
    ensures r >= 0.0 && (r == x || r == -x)
  {
    if x < 0.0 then -x else x
  }

  /** The decision `handleSwipe` makes from the two deltas. */
  function Classify(deltaX: real, deltaY: real, threshold: real): (r: Swipe)
    ensures r != NoSwipe <==> Abs(deltaX) > Abs(deltaY) && Abs(deltaX) > threshold
    ensures r == SwipeRight ==> deltaX > 0.0
    ensures r == SwipeLeft ==> deltaX < 0.0
  {
    if Abs(deltaX) > Abs(deltaY) then
      if Abs(deltaX) > threshold then
        if deltaX > 0.0 then SwipeRight else SwipeLeft
      else NoSwipe
    else NoSwipe
  }

  function Mirror(s: Swipe): Swipe {
    match s
    case SwipeLeft => SwipeRight
    case SwipeRight => SwipeLeft
    case NoSwipe => NoSwipe
  }

  /** The same gesture drawn mirror-wise (or upside down) is recognised as
      the opposite (the same) swipe. */
  lemma ClassifySymmetric(deltaX: real, deltaY: real, threshold: real)
    ensures Classify(-deltaX, deltaY, threshold) == Mirror(Classify(deltaX, deltaY, threshold))
    ensures Classify(deltaX, -deltaY, threshold) == Classify(deltaX, deltaY, threshold)
  {
  }

  /** A swipe recognised under one threshold is recognised, as the same
      swipe, under any lower one. */
  lemma ClassifyMonotone(deltaX: real, deltaY: real, lower: real, higher: real)
    requires lower <= higher
    requires Classify(deltaX, deltaY, higher) != NoSwipe
    ensures Classify(deltaX, deltaY, lower) == Classify(deltaX, deltaY, higher)
  {
  }

  /** A movement at least as vertical as horizontal is never a swipe,
      whatever the threshold; in particular a tap that does not move. */
  lemma VerticalIsNoSwipe(deltaX: real, deltaY: real, threshold: real)
    requires Abs(deltaX) <= Abs(deltaY)
    ensures Classify(deltaX, deltaY, threshold) == NoSwipe
  {
  }

  /** The gesture handlers of one element: the four touch coordinates the
      hook keeps in refs, and its options. */
  class SwipeHandler {
    var touchStartX: real
    var touchStartY: real
    var touchEndX: real
    var touchEndY: real
    const threshold: real
    const hasLeftCallback: bool
    const hasRightCallback: bool
    const preventDefaultTouchmoveEvent: bool

    /** The refs start at 0; an omitted threshold is 50 and an omitted
        `preventDefaultTouchmoveEvent` is false. */
    constructor (onSwipeLeft: bool, onSwipeRight: bool, thresholdOption: real, hasThreshold: bool,
                 preventDefault: bool)
      ensures touchStartX == 0.0 && touchStartY == 0.0 && touchEndX == 0.0 && touchEndY == 0.0
      ensures threshold == (if hasThreshold then thresholdOption else DefaultThreshold)
      ensures hasLeftCallback == onSwipeLeft && hasRightCallback == onSwipeRight
      ensures preventDefaultTouchmoveEvent == preventDefault
    {
      touchStartX, touchStartY, touchEndX, touchEndY := 0.0, 0.0, 0.0, 0.0;
      threshold := if hasThreshold then thresholdOption else DefaultThreshold;
      hasLeftCallback, hasRightCallback := onSwipeLeft, onSwipeRight;
      preventDefaultTouchmoveEvent := preventDefault;
    }

    /** `handleSwipe`: the swipe the stored coordinates make, and whether a
        callback for it exists and is called. */
    method HandleSwipe() returns (swipe: Swipe, called: bool)
      ensures swipe == Classify(touchEndX - touchStartX, touchEndY - touchStartY, threshold)
      ensures called <==> (swipe == SwipeLeft && hasLeftCallback) || (swipe == SwipeRight && hasRightCallback)
    {
      var deltaX := touchEndX - touchStartX;
      var deltaY := touchEndY - touchStartY;
      swipe, called := NoSwipe, false;
      if Abs(deltaX) > Abs(deltaY) {
        if Abs(deltaX) > threshold {
          if deltaX > 0.0 {
            swipe, called := SwipeRight, hasRightCallback;
          } else {
            swipe, called := SwipeLeft, hasLeftCallback;
          }
        }
      }
    }

    /** `handleTouchStart`: the first target touch's position becomes the
        start; the end is left as it was. */
    method HandleTouchStart(clientX: real, clientY: real)
      modifies this
      ensures touchStartX == clientX && touchStartY == clientY
      ensures touchEndX == old(touchEndX) && touchEndY == old(touchEndY)
    {
      touchStartX := clientX;
      touchStartY := clientY;
    }

    /** `handleTouchMove`: whether the event's default action is
        suppressed. */
    method HandleTouchMove() returns (preventedDefault: bool)
      ensures preventedDefault == preventDefaultTouchmoveEvent
    {
      preventedDefault := preventDefaultTouchmoveEvent;
    }

    /** `handleTouchEnd`: the first changed touch's position becomes the
        end, and the swipe from the stored start to it is decided. */
    method HandleTouchEnd(clientX: real, clientY: real) returns (swipe: Swipe, called: bool)
      modifies this
      ensures touchStartX == old(touchStartX) && touchStartY == old(touchStartY)
      ensures touchEndX == clientX && touchEndY == clientY
      ensures swipe == Classify(clientX - old(touchStartX), clientY - old(touchStartY), threshold)
      ensures called <==> (swipe == SwipeLeft && hasLeftCallback) || (swipe == SwipeRight && hasRightCallback)
    {
      touchEndX := clientX;
      touchEndY := clientY;
      swipe, called := HandleSwipe();
    }
  }

  /** A whole gesture: touch down, then lift. The outcome depends only on
      the two positions and the threshold, not on what touches came
      before. */
  method Gesture(handler: SwipeHandler, startX: real, startY: real, endX: real, endY: real)
      returns (swipe: Swipe, called: bool)
    modifies handler
    ensures swipe == Classify(endX - startX, endY - startY, handler.threshold)
    ensures called ==> swipe != NoSwipe
  {
    handler.HandleTouchStart(startX, startY);
    swipe, called := handler.HandleTouchEnd(endX, endY);
  }
}
