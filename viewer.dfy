/** One page of the carousel (ImageViewerController): pan-to-dismiss, the
    cancel animation that locks out new pans, the pan gate, pinch and
    double-tap zoom, the zoom bounds and the centring insets. */
module Viewer {
  import opened Types
  import opened Views

  /** UIGestureRecognizer.State. */
  datatype GestureState = Possible | Began | Changed | Ended | Cancelled | Failed

  /** The distance, in points, a pan must exceed vertically to dismiss. */
  const DismissThreshold: real := 60.0

  /** The factor a two-finger tap divides the zoom scale by. */
  const PinchFactor: real := 1.5

  /** The factor the maximum zoom scale adds on top of "fill". */
  const MaxZoomFactor: real := 1.5

  function Translate(p: Point, d: Point): (q: Point)
    ensures q.x - p.x == d.x && q.y - p.y == d.y
  {
    Point(p.x + d.x, p.y + d.y)
  }

  /** The background alpha during a pan, `1 - |diffY / view.center.y|`; the
      code does not clamp it. */
  function PanAlpha(diffY: real, viewCenterY: real): (a: real)
    requires viewCenterY > 0.0
    ensures a <= 1.0
    ensures a == 1.0 <==> diffY == 0.0
    ensures a >= 0.0 <==> Abs(diffY) <= viewCenterY
  {
    var q := diffY / viewCenterY;
    assert Abs(diffY) == Abs(q) * viewCenterY;
    1.0 - Abs(q)
  }

  /** The pan in the code never clamps: a drag past the view's centre height
      gives a negative alpha. */
  lemma PanAlphaGoesNegative(viewCenterY: real)
    requires viewCenterY > 0.0
    ensures PanAlpha(2.0 * viewCenterY, viewCenterY) == -1.0
  {
  }

  /** A pan that ends dismisses exactly when it moved the image more than the
      threshold vertically. */
  predicate ShouldDismiss(diffY: real) {
    Abs(diffY) > DismissThreshold
  }

  lemma DismissBoundary()
    ensures !ShouldDismiss(60.0) && !ShouldDismiss(-60.0)
    ensures ShouldDismiss(61.0) && ShouldDismiss(-61.0)
  {
  }

  /** `didPinch`: the zoom scale shrinks by the pinch factor, never below the
      minimum. */
  function PinchedZoomScale(zoom: real, minZoom: real): (z: real)
    requires 0.0 < minZoom <= zoom
    ensures minZoom <= z <= zoom
    ensures z == minZoom <==> zoom <= PinchFactor * minZoom
    ensures zoom > minZoom ==> z < zoom
  {
    Max(zoom / PinchFactor, minZoom)
  }

  /** The scale a double tap zooms to: the maximum from the minimum, the
      minimum from anywhere else. */
  function DoubleTapZoomScale(zoom: real, minZoom: real, maxZoom: real): (z: real)
    ensures zoom == minZoom ==> z == maxZoom
    ensures zoom != minZoom ==> z == minZoom
  {
    if zoom == minZoom then maxZoom else minZoom
  }

  /** Two double taps at the minimum come back to the minimum. */
  lemma DoubleTapToggles(minZoom: real, maxZoom: real)
    requires minZoom < maxZoom
    ensures DoubleTapZoomScale(DoubleTapZoomScale(minZoom, minZoom, maxZoom), minZoom, maxZoom) == minZoom
  {
  }

  /** The rectangle `zoomInOrOut` hands to `zoom(to:)`: the scroll view's
      bounds at the new scale, centred on the tapped point. */
  function ZoomRect(point: Point, bounds: Size, zoom: real): (r: Rect)
    requires zoom > 0.0
    ensures r.size.width * zoom == bounds.width && r.size.height * zoom == bounds.height
    ensures r.origin.x + r.size.width / 2.0 == point.x
    ensures r.origin.y + r.size.height / 2.0 == point.y
  {
    var w := bounds.width / zoom;
    var h := bounds.height / zoom;
    Rect(Point(point.x - w * 0.5, point.y - h * 0.5), Size(w, h))
  }

  /** The rectangle asks exactly for the new scale: the bounds over its width
      give back the zoom. */
  lemma ZoomRectShowsScale(point: Point, bounds: Size, zoom: real)
    requires zoom > 0.0 && bounds.width > 0.0 && bounds.height > 0.0
    ensures bounds.width / ZoomRect(point, bounds, zoom).size.width == zoom
    ensures bounds.height / ZoomRect(point, bounds, zoom).size.height == zoom
  {
    var r := ZoomRect(point, bounds, zoom);
    assert r.size.width * zoom == bounds.width;
    assert r.size.height * zoom == bounds.height;
  }

  /** The minimum zoom scale: the image fits the viewport in both directions. */
  function MinZoomScale(viewport: Size, image: Size): (z: real)
    requires image.width > 0.0 && image.height > 0.0
    ensures z * image.width <= viewport.width && z * image.height <= viewport.height
    ensures z * image.width == viewport.width || z * image.height == viewport.height
  {
    Min(viewport.width / image.width, viewport.height / image.height)
  }

  /** The maximum zoom scale: 1.5 times the scale at which the image covers
      the viewport grown by one point in each direction. */
  function MaxZoomScale(viewport: Size, image: Size): (z: real)
    requires image.width > 0.0 && image.height > 0.0
    ensures z * image.width >= MaxZoomFactor * (viewport.width + 1.0)
    ensures z * image.height >= MaxZoomFactor * (viewport.height + 1.0)
  {
    MaxZoomFactor * Max((viewport.width + 1.0) / image.width, (viewport.height + 1.0) / image.height)
  }

  /** The maximum is strictly above the minimum for any viewport. */
  lemma MaxZoomAboveMin(viewport: Size, image: Size)
    requires image.width > 0.0 && image.height > 0.0
    requires viewport.width >= 0.0
    ensures MaxZoomScale(viewport, image) > MinZoomScale(viewport, image)
  {
    var lo := MinZoomScale(viewport, image);
    var hi := MaxZoomScale(viewport, image);
    assert lo * image.width <= viewport.width;
    assert hi * image.width >= MaxZoomFactor * (viewport.width + 1.0);
    assert hi * image.width > lo * image.width;
  }

  /** The inset `updateConstraintsForSize` gives on one axis: half the room
      left beside the content, never negative. */
  function CenteringInset(viewport: real, content: real): (inset: real)
    ensures inset >= 0.0
    ensures content <= viewport ==> 2.0 * inset + content == viewport
    ensures content >= viewport ==> inset == 0.0
  {
    Max(0.0, (viewport - content) / 2.0)
  }

  /** `gestureRecognizerShouldBegin`: a gesture may begin only at the minimum
      zoom, only if it is a pan, and only if it is more vertical than
      horizontal. */
  predicate PanMayBegin(zoom: real, minZoom: real, isPan: bool, velocity: Point) {
    zoom == minZoom && isPan && Abs(velocity.y) > Abs(velocity.x)
  }

  /** A horizontal or diagonal swipe is left to the paging controller, and
      the direction of a vertical swipe does not matter. */
  lemma PanGateLeavesHorizontalSwipes(zoom: real, minZoom: real, velocity: Point)
    ensures Abs(velocity.y) <= Abs(velocity.x) ==> !PanMayBegin(zoom, minZoom, true, velocity)
    ensures PanMayBegin(zoom, minZoom, true, velocity)
        <==> PanMayBegin(zoom, minZoom, true, Point(-velocity.x, -velocity.y))
  {
  }

  /** ImageViewerController. `parent` is the hosting carousel's chrome, or
      null while the page is not attached to a carousel. */
  class ImageViewerController {
    const index: int
    const imageItem: Option<ImageItem>
    const imageView: ImageView
    var parent: Chrome?

    /** `view.center` and the scroll view's `bounds.size`. */
    var viewCenter: Point
    var scrollBoundsSize: Size

    /** UIScrollView's zoom state and the page's own `maxZoomScale`. */
    var zoomScale: real
    var minimumZoomScale: real
    var maximumZoomScale: real
    var maxZoomScale: real
    /** The rectangle last passed to `zoom(to:animated:)`. */
    var zoomRect: Option<Rect>

    /** Pan state. */
    var lastLocation: Point
    var isAnimating: bool
    var controlsWereVisible: bool
    /** Set once the page has called `dismiss(animated:)`. */
    var dismissRequested: bool

    /** The image view's layout constraint constants. */
    var topConstant: real
    var bottomConstant: real
    var leadingConstant: real
    var trailingConstant: real

    ghost predicate Valid()
      reads this
    {
      viewCenter.y > 0.0 && 0.0 < minimumZoomScale <= zoomScale <= maximumZoomScale
    }

    /** `init(index:imageItem:)` with the view loaded: UIScrollView starts
        with every zoom scale at 1. */
    constructor (index: int, imageItem: Option<ImageItem>, imageView: ImageView, viewCenter: Point, scrollBoundsSize: Size)
      requires viewCenter.y > 0.0
      ensures Valid()
      ensures this.index == index && this.imageItem == imageItem && this.imageView == imageView
      ensures this.viewCenter == viewCenter && this.scrollBoundsSize == scrollBoundsSize
      ensures parent == null && !isAnimating && !controlsWereVisible && !dismissRequested
      ensures zoomScale == 1.0 && minimumZoomScale == 1.0 && maximumZoomScale == 1.0 && maxZoomScale == 1.0
      ensures lastLocation == Point(0.0, 0.0) && zoomRect == None
    {
      this.index := index;
      this.imageItem := imageItem;
      this.imageView := imageView;
      this.viewCenter := viewCenter;
      this.scrollBoundsSize := scrollBoundsSize;
      parent := null;
      zoomScale, minimumZoomScale, maximumZoomScale, maxZoomScale := 1.0, 1.0, 1.0, 1.0;
      zoomRect := None;
      lastLocation := Point(0.0, 0.0);
      isAnimating, controlsWereVisible, dismissRequested := false, false, false;
      topConstant, bottomConstant, leadingConstant, trailingConstant := 0.0, 0.0, 0.0, 0.0;
    }

    /** The `hideControls` getter: the parent's flag, false without a parent. */
    function HideControls(): (hidden: bool)
      reads this, parent
      ensures hidden <==> parent != null && parent.hideControls
    {
      if parent == null then false else parent.hideControls
    }

    /** `navBar?.alpha ?? 0 > 0`. */
    function ControlsVisible(): (visible: bool)
      reads this, parent
      ensures visible <==> parent != null && parent.navBarAlpha > 0.0
    {
      (if parent == null then 0.0 else parent.navBarAlpha) > 0.0
    }

    /** A pan event is dropped while the cancel animation runs or while the
        image is zoomed in. */
    predicate PanIgnored()
      reads this
    {
      isAnimating || zoomScale != minimumZoomScale
    }

    /** `gestureRecognizerShouldBegin`. */
    function GestureRecognizerShouldBegin(isPan: bool, velocity: Point): (begin: bool)
      reads this
      ensures begin <==> PanMayBegin(zoomScale, minimumZoomScale, isPan, velocity)
      ensures begin ==> isPan && zoomScale == minimumZoomScale
    {
      zoomScale == minimumZoomScale && isPan && Abs(velocity.y) > Abs(velocity.x)
    }

    /** `didPan`. `translation` is the recogniser's translation in the view. */
    method DidPan(state: GestureState, translation: Point)
      requires Valid()
      modifies this`lastLocation, this`controlsWereVisible, this`isAnimating, this`dismissRequested
      modifies imageView`center, parent
      ensures Valid()
      ensures parent == old(parent) && viewCenter == old(viewCenter)
      ensures zoomScale == old(zoomScale) && minimumZoomScale == old(minimumZoomScale)
      ensures maximumZoomScale == old(maximumZoomScale)
      ensures old(PanIgnored()) ==>
        unchanged(this, imageView) && (parent != null ==> unchanged(parent))
      ensures !old(PanIgnored()) ==>
        && lastLocation == (if state == Began then old(imageView.center) else old(lastLocation))
        && controlsWereVisible == (if state == Began then old(ControlsVisible()) else old(controlsWereVisible))
        && var dragged := if state == Cancelled then old(imageView.center) else Translate(lastLocation, translation);
           var diffY := viewCenter.y - dragged.y;
           var cancelling := state == Ended && !ShouldDismiss(diffY);
           && dismissRequested == (old(dismissRequested) || (state == Ended && ShouldDismiss(diffY)))
           && isAnimating == cancelling
           && imageView.center == (if cancelling then viewCenter else dragged)
           && (parent != null ==>
                && parent.backgroundAlpha == (if cancelling then 1.0 else PanAlpha(diffY, viewCenter.y))
                && parent.navBarAlpha == (if controlsWereVisible then PanAlpha(diffY, viewCenter.y) else old(parent.navBarAlpha))
                && parent.toolBarAlpha == (if controlsWereVisible then PanAlpha(diffY, viewCenter.y) else old(parent.toolBarAlpha))
                && parent.hideControls == old(parent.hideControls)
                && parent.backgroundColor == old(parent.backgroundColor)
                && parent.darkStyle == old(parent.darkStyle))
    {
      if isAnimating || zoomScale != minimumZoomScale {
        return;
      }
      if state == Began {
        lastLocation := imageView.center;
        controlsWereVisible := (if parent == null then 0.0 else parent.navBarAlpha) > 0.0;
      }
      if state != Cancelled {
        imageView.center := Point(lastLocation.x + translation.x, lastLocation.y + translation.y);
      }
      var diffY := viewCenter.y - imageView.center.y;
      var alpha := 1.0 - Abs(diffY / viewCenter.y);
      if parent != null {
        parent.backgroundAlpha := alpha;
      }
      if controlsWereVisible && parent != null {
        parent.navBarAlpha := alpha;
        parent.toolBarAlpha := alpha;
      }
      if state == Ended {
        if Abs(diffY) > DismissThreshold {
          dismissRequested := true;
        } else {
          ExecuteCancelAnimation();
        }
      }
    }

    /** `executeCancelAnimation`: the image returns to the view's centre and
        the background to full opacity; until the animation's completion runs
        `isAnimating` stays true. */
    method ExecuteCancelAnimation()
      requires Valid()
      modifies this`isAnimating, imageView`center, parent
      ensures Valid()
      ensures isAnimating && imageView.center == viewCenter
      ensures parent != null ==> parent.backgroundAlpha == 1.0
      ensures parent != null ==>
        && parent.navBarAlpha == old(parent.navBarAlpha) && parent.toolBarAlpha == old(parent.toolBarAlpha)
        && parent.hideControls == old(parent.hideControls)
        && parent.backgroundColor == old(parent.backgroundColor) && parent.darkStyle == old(parent.darkStyle)
    {
      isAnimating := true;
      imageView.center := viewCenter;
      if parent != null {
        parent.backgroundAlpha := 1.0;
      }
    }

    /** The cancel animation's completion. */
    method CancelAnimationDidFinish()
      requires Valid()
      modifies this`isAnimating
      ensures Valid() && !isAnimating
    {
      isAnimating := false;
    }

    /** `didPinch` (the two-finger tap). */
    method DidPinch()
      requires Valid()
      modifies this`zoomScale
      ensures Valid()
      ensures zoomScale == PinchedZoomScale(old(zoomScale), minimumZoomScale)
    {
      var newZoomScale := zoomScale / PinchFactor;
      newZoomScale := Max(newZoomScale, minimumZoomScale);
      zoomScale := newZoomScale;
    }

    /** `didSingleTap`: toggles the parent's `hideControls`. */
    method DidSingleTap()
      modifies parent
      ensures parent != null ==>
        && parent.hideControls == !old(parent.hideControls)
        && parent.darkStyle == old(parent.darkStyle)
        && parent.backgroundAlpha == old(parent.backgroundAlpha)
        && parent.navBarAlpha == ChromeAlpha(!old(parent.hideControls))
        && parent.toolBarAlpha == ChromeAlpha(!old(parent.hideControls))
        && parent.backgroundColor == BackgroundColor(!old(parent.hideControls), old(parent.darkStyle))
    {
      if parent != null {
        parent.SetHideControls(!parent.hideControls);
      }
    }

    /** `zoomInOrOut(at:)` reached from a double tap at `point`. The scroll
        view ends at the scale whose bounds the requested rectangle fills. */
    method ZoomInOrOut(point: Point)
      requires Valid()
      modifies this`zoomScale, this`zoomRect
      ensures Valid()
      ensures zoomScale == DoubleTapZoomScale(old(zoomScale), minimumZoomScale, maximumZoomScale)
      ensures zoomRect == Some(ZoomRect(point, scrollBoundsSize, zoomScale))
    {
      var zoomIn := zoomScale == minimumZoomScale;
      var newZoomScale := if zoomIn then maximumZoomScale else minimumZoomScale;
      zoomRect := Some(ZoomRect(point, scrollBoundsSize, newZoomScale));
      zoomScale := newZoomScale;
    }

    /** `updateMinMaxZoomScaleForSize`. Nothing happens while the image view
        has no width or height. */
    method UpdateMinMaxZoomScaleForSize(size: Size)
      requires Valid()
      requires size.width > 0.0 && size.height > 0.0
      requires imageView.boundsSize.width >= 0.0 && imageView.boundsSize.height >= 0.0
      modifies this`zoomScale, this`minimumZoomScale, this`maximumZoomScale, this`maxZoomScale
      ensures Valid()
      ensures var target := imageView.boundsSize;
        if target.width == 0.0 || target.height == 0.0 then
          unchanged(this)
        else
          && minimumZoomScale == MinZoomScale(size, target)
          && zoomScale == minimumZoomScale
          && maxZoomScale * MaxZoomFactor == MaxZoomScale(size, target)
          && maximumZoomScale == MaxZoomScale(size, target)
          && maximumZoomScale > minimumZoomScale
    {
      var targetSize := imageView.boundsSize;
      if targetSize.width == 0.0 || targetSize.height == 0.0 {
        return;
      }
      var minScale := Min(size.width / targetSize.width, size.height / targetSize.height);
      var maxScale := Max((size.width + 1.0) / targetSize.width, (size.height + 1.0) / targetSize.height);
      MaxZoomAboveMin(size, targetSize);
      minimumZoomScale := minScale;
      zoomScale := minScale;
      maxZoomScale := maxScale;
      maximumZoomScale := maxZoomScale * MaxZoomFactor;
    }

    /** `updateConstraintsForSize`. `frame` is the image view's frame size
        after `sizeToFit()`, which UIKit computes. */
    method UpdateConstraintsForSize(size: Size, frame: Size)
      modifies this`topConstant, this`bottomConstant, this`leadingConstant, this`trailingConstant
      ensures topConstant == bottomConstant == CenteringInset(size.height, frame.height)
      ensures leadingConstant == trailingConstant == CenteringInset(size.width, frame.width)
    {
      var yOffset := Max(0.0, (size.height - frame.height) / 2.0);
      topConstant := yOffset;
      bottomConstant := yOffset;
      var xOffset := Max(0.0, (size.width - frame.width) / 2.0);
      leadingConstant := xOffset;
      trailingConstant := xOffset;
    }
  }
}
