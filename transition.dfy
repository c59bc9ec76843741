/** The custom present/dismiss transition (ImageViewerTransitionPresentationAnimator
    and its manager) as a phase machine: which guards abort it, which opacities
    it writes when it starts and when its animation ends, where the ghost image
    view starts, and when the completion reaches the transition context. */
module Transition {
  import opened Types
  import opened Views
  import opened Carousel

  /** `transitionDuration(using:)`, the same in both directions. */
  const TransitionDuration: real := 0.25

  /** The keys of `viewController(forKey:)`. */
  datatype ContextKey = To | From

  /** The key `animateTransition` reads: the presented controller when
      presenting, the dismissed one when dismissing. */
  function ControllerKey(isPresenting: bool): (k: ContextKey)
    ensures k == To <==> isPresenting
    ensures k == From <==> !isPresenting
  {
    if isPresenting then To else From
  }

  /** The controllers a transition context holds under each key. */
  datatype TransitionContext = TransitionContext(to: Option<Controller>, from: Option<Controller>) {
    function ViewController(key: ContextKey): (c: Option<Controller>)
      ensures key == To ==> c == to
      ensures key == From ==> c == from
    {
      match key
      case To => to
      case From => from
    }
  }

  /** `controller as? ImageCarouselViewController`. */
  function AsCarousel(c: Option<Controller>): (r: ImageCarouselViewController?)
    ensures r != null <==> c.Some? && c.value.CarouselController?
    ensures r != null ==> r == c.value.carousel
  {
    if c.Some? && c.value.CarouselController? then c.value.carousel else null
  }

  /** The carousel a transition runs on, as a set: empty without one. */
  function CarouselNode(c: ImageCarouselViewController?): (r: set<ImageCarouselViewController>)
    ensures c == null <==> r == {}
    ensures c != null ==> r == {c}
  {
    if c == null then {} else {c}
  }

  /** The grid under that carousel, as a set. */
  function GridNode(c: ImageCarouselViewController?): (r: set<CollectionView>)
    ensures c == null <==> r == {}
    ensures c != null ==> r == {c.grid}
  {
    if c == null then {} else {c.grid}
  }

  /** The shown page's image view, as a set: empty without a carousel or a page. */
  function PageView(c: ImageCarouselViewController?): (r: set<ImageView>)
    reads c
    ensures r == {} <==> c == null || c.page == null
    ensures c != null && c.page != null ==> r == {c.page.imageView}
  {
    if c == null || c.page == null then {} else {c.page.imageView}
  }

  /** The present guards: a grid above the thumbnail, a loaded cell at the
      active row, and a target view. */
  predicate PresentGuardPasses(c: ImageCarouselViewController)
    reads c`sourcePath, c`indexOffset, c`currentIndex, c`page, c.grid`loaded
  {
    c.HasGrid() && c.ActiveRow() in c.grid.loaded && c.page != null
  }

  /** The image of `sourceView`, when there is one. */
  function SourceImage(c: ImageCarouselViewController): (img: Option<Bitmap>)
    reads c`page, c`initialIndex, c`sourcePath
    ensures img.Some? ==> c.SourceView().Some? && img == c.SourceView().value.image
  {
    match c.SourceView()
    case None => None
    case Some(v) => v.image
  }

  /** The ghost image view that flies between the thumbnail and the page. */
  datatype DummyView = DummyView(frame: Rect, image: Option<Bitmap>, contentMode: ContentMode)

  /** Where a transition stands. */
  datatype Phase =
    /** `animateTransition` has not run. */
    | Idle
    /** A guard failed: nothing was written and the completion is never called. */
    | Aborted
    /** The animation block is running; its completion is pending. */
    | Animating
    /** Presenting: the animation ended and the target view's image is observed. */
    | AwaitingImage
    /** The completion reached the transition context. */
    | Done

  /** ImageViewerTransitionPresentationAnimator. The values an animation block
      assigns are recorded when the animation ends. */
  class ImageViewerTransitionPresentationAnimator {
    const isPresenting: bool
    const imageContentMode: ContentMode
    var phase: Phase
    var duration: real
    /** The carousel the transition runs on. */
    var carousel: ImageCarouselViewController?
    /** The grid row whose cell is the source view, when that cell is loaded. */
    var cell: Option<int>
    /** The target image view (presenting: the one whose image is observed). */
    var target: ImageView?
    var dummy: Option<DummyView>
    /** Whether `observation` is set. It is never invalidated. */
    var observing: bool
    /** The `finished` flag passed to the animation's completion. */
    var finished: bool
    /** The arguments of every `completeTransition` call, in order. */
    var completions: seq<bool>

    ghost predicate Valid()
      reads this
    {
      && (phase == Animating || phase == AwaitingImage || phase == Done ==> carousel != null)
      && (isPresenting && (phase == Animating || phase == AwaitingImage || phase == Done) ==>
            target != null && cell.Some?)
      && (isPresenting && (phase == Animating || phase == AwaitingImage) ==> dummy.Some?)
      && (!isPresenting ==> !observing)
      && (observing ==> target != null && carousel != null && cell.Some?)
    }

    constructor (isPresenting: bool, imageContentMode: ContentMode)
      ensures Valid() && this.isPresenting == isPresenting && this.imageContentMode == imageContentMode
      ensures phase == Idle && carousel == null && dummy == None && !observing && completions == []
    {
      this.isPresenting := isPresenting;
      this.imageContentMode := imageContentMode;
      phase := Idle;
      duration := 0.0;
      carousel := null;
      cell := None;
      target := null;
      dummy := None;
      observing := false;
      finished := false;
      completions := [];
    }

    /** The carousel on the side of the transition this animator drives. */
    function CarouselOf(context: TransitionContext): (c: ImageCarouselViewController?)
      ensures c != null <==> context.ViewController(ControllerKey(isPresenting)).Some?
                             && context.ViewController(ControllerKey(isPresenting)).value.CarouselController?
    {
      AsCarousel(context.ViewController(ControllerKey(isPresenting)))
    }

    /** `animateTransition(using:)`. `targetWindowFrame` is the window frame of
        the target view, which dismissing reads. */
    method AnimateTransition(context: TransitionContext, targetWindowFrame: Rect)
      requires Valid() && phase == Idle
      requires var c := CarouselOf(context); c != null ==> c.Valid()
      modifies this`duration, this`phase, this`carousel, this`cell, this`target, this`dummy
      modifies CarouselNode(CarouselOf(context))`viewAlpha, CarouselNode(CarouselOf(context))`viewInContainer
      modifies GridNode(CarouselOf(context))`alpha, PageView(CarouselOf(context))
      ensures Valid() && duration == TransitionDuration && completions == old(completions)
      ensures var c := CarouselOf(context);
        && (c == null ==>
              phase == Aborted && dummy == old(dummy)
              && carousel == old(carousel) && cell == old(cell) && target == old(target))
        && (c != null ==> c.Valid())
        && (c != null && isPresenting && !old(PresentGuardPasses(c)) ==>
              && phase == Aborted && dummy == old(dummy)
              && carousel == old(carousel) && cell == old(cell) && target == old(target)
              && c.viewAlpha == old(c.viewAlpha) && c.viewInContainer == old(c.viewInContainer)
              && c.grid.alpha == old(c.grid.alpha)
              && (c.page != null ==> unchanged(c.page.imageView)))
        && (c != null && isPresenting && old(PresentGuardPasses(c)) ==>
              var row := c.ActiveRow();
              && phase == Animating && carousel == c && cell == Some(row) && target == c.page.imageView
              && row in c.grid.loaded && c.grid.alpha == old(c.grid.alpha)[row := 0.0]
              && c.viewAlpha == 0.0 && c.viewInContainer
              && target.alpha == 0.0 && target.image == old(c.page.imageView.image)
              && target.center == old(c.page.imageView.center)
              && target.isHidden == old(c.page.imageView.isHidden) && target.boundsSize == old(c.page.imageView.boundsSize)
              && dummy == Some(DummyView(c.transitionSourceRect.GetOr(c.grid.windowFrame[row]), SourceImage(c), ScaleAspectFit)))
        && (c != null && !isPresenting && !old(c.HasGrid()) ==>
              && phase == Aborted && dummy == old(dummy) && c.viewAlpha == old(c.viewAlpha)
              && carousel == old(carousel) && cell == old(cell) && target == old(target)
              && (c.page != null ==> unchanged(c.page.imageView)))
        && (c != null && !isPresenting && old(c.HasGrid()) ==>
              var row := c.ActiveRow();
              && phase == Animating && carousel == c && target == c.TargetView()
              && cell == (if row in c.grid.loaded then Some(row) else None)
              && c.viewAlpha == 1.0 && c.viewInContainer == old(c.viewInContainer) && c.grid.alpha == old(c.grid.alpha)
              && (c.page != null ==>
                    var t := c.page.imageView;
                    t.isHidden && t.alpha == old(t.alpha) && t.image == old(t.image)
                    && t.center == old(t.center) && t.boundsSize == old(t.boundsSize))
              && dummy == Some(DummyView(
                   if target != null then targetWindowFrame else c.viewBounds,
                   if target != null then target.image else None,
                   imageContentMode)))
    {
      var key := ControllerKey(isPresenting);
      var controller := context.ViewController(key);
      duration := TransitionDuration;
      var c := CarouselOf(context);
      if controller.None? || c == null {
        phase := Aborted;
        return;
      }
      if isPresenting {
        PresentAnimation(c);
      } else {
        DismissAnimation(c, targetWindowFrame);
      }
    }

    /** `presentAnimation`: the guards, then the writes made before the
        animation block. */
    method PresentAnimation(c: ImageCarouselViewController)
      requires Valid() && phase == Idle && isPresenting && c.Valid()
      modifies this`phase, this`carousel, this`cell, this`target, this`dummy
      modifies c`viewAlpha, c`viewInContainer, c.grid`alpha
      modifies if c.page != null then {c.page.imageView} else {}
      ensures Valid() && completions == old(completions)
      ensures !old(PresentGuardPasses(c)) ==>
        && phase == Aborted && dummy == old(dummy)
        && carousel == old(carousel) && cell == old(cell) && target == old(target)
        && c.viewAlpha == old(c.viewAlpha) && c.viewInContainer == old(c.viewInContainer)
        && c.grid.alpha == old(c.grid.alpha)
        && (c.page != null ==> unchanged(c.page.imageView))
      ensures old(PresentGuardPasses(c)) ==>
        var row := c.ActiveRow();
        && phase == Animating && carousel == c && cell == Some(row) && target == c.page.imageView
        && c.grid.alpha == old(c.grid.alpha)[row := 0.0]
        && c.viewAlpha == 0.0 && c.viewInContainer
        && target.alpha == 0.0 && target.image == old(c.page.imageView.image)
        && target.center == old(c.page.imageView.center)
        && target.isHidden == old(c.page.imageView.isHidden) && target.boundsSize == old(c.page.imageView.boundsSize)
        && dummy == Some(DummyView(c.transitionSourceRect.GetOr(c.grid.windowFrame[row]), SourceImage(c), ScaleAspectFit))
    {
      if !c.HasGrid() {
        phase := Aborted;
        return;
      }
      var rowIndex := c.indexOffset + c.currentIndex;
      if rowIndex !in c.grid.loaded || c.page == null {
        phase := Aborted;
        return;
      }
      BeginPresent(c);
    }

    /** The writes `presentAnimation` makes once its guards pass: the cell,
        the carousel and the target turn transparent, and the ghost appears
        over the source frame. */
    method BeginPresent(c: ImageCarouselViewController)
      requires Valid() && phase == Idle && isPresenting && PresentGuardPasses(c) && c.ActiveRow() in c.grid.windowFrame
      modifies this`phase, this`carousel, this`cell, this`target, this`dummy
      modifies c`viewAlpha, c`viewInContainer, c.grid`alpha, c.page.imageView`alpha
      ensures Valid() && completions == old(completions)
      ensures var row := c.ActiveRow();
        && phase == Animating && carousel == c && cell == Some(row) && target == c.page.imageView
        && c.grid.alpha == old(c.grid.alpha)[row := 0.0]
        && c.viewAlpha == 0.0 && c.viewInContainer && target.alpha == 0.0
        && dummy == Some(DummyView(c.transitionSourceRect.GetOr(c.grid.windowFrame[row]), SourceImage(c), ScaleAspectFit))
    {
      var rowIndex := c.indexOffset + c.currentIndex;
      var targetView := c.page.imageView;
      var sourceImage := SourceImage(c);
      var sourceFrame := c.grid.windowFrame[rowIndex];
      if c.transitionSourceRect.Some? {
        sourceFrame := c.transitionSourceRect.value;
      }
      assert sourceFrame == c.transitionSourceRect.GetOr(c.grid.windowFrame[rowIndex]);
      dummy := Some(DummyView(sourceFrame, sourceImage, ScaleAspectFit));
      carousel := c;
      cell := Some(rowIndex);
      target := targetView;
      phase := Animating;
      HideForPresent(c, rowIndex, targetView);
      assert SourceImage(c) == sourceImage;
    }

    /** The cell of the active row, the carousel and the target turn
        transparent, and the carousel's view joins the container. */
    static method HideForPresent(c: ImageCarouselViewController, row: int, targetView: ImageView)
      modifies c`viewAlpha, c`viewInContainer, c.grid`alpha, targetView`alpha
      ensures c.grid.alpha == old(c.grid.alpha)[row := 0.0]
      ensures c.viewAlpha == 0.0 && c.viewInContainer && targetView.alpha == 0.0
    {
      c.grid.alpha := c.grid.alpha[row := 0.0];
      c.viewAlpha := 0.0;
      c.viewInContainer := true;
      targetView.alpha := 0.0;
    }

    /** `dismissAnimation`: the guard, then the writes made before the
        animation block. */
    method DismissAnimation(c: ImageCarouselViewController, targetWindowFrame: Rect)
      requires Valid() && phase == Idle && !isPresenting && c.Valid()
      modifies this`phase, this`carousel, this`cell, this`target, this`dummy, c`viewAlpha
      modifies if c.page != null then {c.page.imageView} else {}
      ensures Valid() && completions == old(completions)
      ensures !old(c.HasGrid()) ==>
        phase == Aborted && dummy == old(dummy) && c.viewAlpha == old(c.viewAlpha)
        && carousel == old(carousel) && cell == old(cell) && target == old(target)
        && (c.page != null ==> unchanged(c.page.imageView))
      ensures old(c.HasGrid()) ==>
        var row := c.ActiveRow();
        && phase == Animating && carousel == c && target == c.TargetView()
        && cell == (if row in c.grid.loaded then Some(row) else None)
        && c.viewAlpha == 1.0
        && (c.page != null ==>
              var t := c.page.imageView;
              t.isHidden && t.alpha == old(t.alpha) && t.image == old(t.image)
              && t.center == old(t.center) && t.boundsSize == old(t.boundsSize))
        && dummy == Some(DummyView(
             if target != null then targetWindowFrame else c.viewBounds,
             if target != null then target.image else None,
             imageContentMode))
    {
      if !c.HasGrid() {
        phase := Aborted;
        return;
      }
      var rowIndex := c.indexOffset + c.currentIndex;
      var sourceCell := if rowIndex in c.grid.loaded then Some(rowIndex) else None;
      var targetView := c.TargetView();
      var frame := if targetView != null then targetWindowFrame else c.viewBounds;
      var image := if targetView != null then targetView.image else None;
      dummy := Some(DummyView(frame, image, imageContentMode));
      if targetView != null {
        targetView.isHidden := true;
      }
      c.viewAlpha := 1.0;
      carousel := c;
      cell := sourceCell;
      target := targetView;
      phase := Animating;
    }

    /** The tasks the present completion queues on the carousel: the tap
        handler's hide (when it presented the carousel and the transition
        finished), then the scroll of `animateTransition`. */
    static function PresentCompletionTasks(c: ImageCarouselViewController, finished: bool): seq<Task>
      reads c`hidesCellOnPresent, c`sourcePath, c`indexOffset, c`currentIndex, c.grid`loaded, c.grid`fullyVisible
    {
      (if finished && c.hidesCellOnPresent && c.HasGrid() then HideTasks(c.ActiveRow(), c.grid.loaded) else [])
      + (if c.HasGrid() then ScrollTasks(c.ActiveRow(), c.grid.loaded, c.grid.fullyVisible, true) else [])
    }

    /** The KVO callback on the target view's image: once the image is set it
        shows the target, removes the ghost and completes the transition. */
    method TargetImageObserved()
      requires Valid() && observing
      modifies this`phase, this`dummy, this`completions, target`alpha, carousel`tasks
      ensures Valid() && observing
      ensures target.image.None? ==>
        phase == old(phase) && dummy == old(dummy) && completions == old(completions)
        && target.alpha == old(target.alpha) && carousel.tasks == old(carousel.tasks)
      ensures target.image.Some? ==>
        && phase == Done && dummy == None && target.alpha == 1.0
        && completions == old(completions) + [finished]
        && carousel.tasks == old(carousel.tasks) + PresentCompletionTasks(carousel, finished)
    {
      if target.image.None? {
        return;
      }
      target.alpha := 1.0;
      dummy := None;
      completions := completions + [finished];
      QueuePresentCompletion(carousel, finished);
      phase := Done;
    }

    /** The carousel calls made by the present completion: hide the source
        cell when asked to, then scroll the grid to the current item. */
    static method QueuePresentCompletion(c: ImageCarouselViewController, finished: bool)
      modifies c`tasks
      ensures c.tasks == old(c.tasks) + PresentCompletionTasks(c, finished)
    {
      if finished && c.hidesCellOnPresent {
        c.HideCurrentParentScrollViewCell();
      }
      c.ScrollParentScrollViewToCurrentItem(true);
    }

    /** The target view's image is assigned while it is observed. */
    method TargetImageDidChange(image: Option<Bitmap>)
      requires Valid() && observing
      modifies this`phase, this`dummy, this`completions, target`alpha, target`image, carousel`tasks
      ensures Valid() && observing && target.image == image
      ensures image.None? ==>
        phase == old(phase) && dummy == old(dummy) && completions == old(completions)
        && target.alpha == old(target.alpha) && carousel.tasks == old(carousel.tasks)
      ensures image.Some? ==>
        && phase == Done && dummy == None && target.alpha == 1.0
        && completions == old(completions) + [finished]
        && carousel.tasks == old(carousel.tasks) + PresentCompletionTasks(carousel, finished)
    {
      target.image := image;
      TargetImageObserved();
    }

    /** The end of the animation block and its completion. Presenting: the
        ghost fills the carousel's bounds, the carousel becomes opaque and the
        target image starts being observed (the initial value included).
        Dismissing: the ghost moves to the cell, the carousel fades out, the
        cell is shown again, the carousel's view leaves the container and the
        transition completes. */
    method AnimationDidFinish(finished: bool)
      requires Valid() && phase == Animating && carousel.Valid()
      requires cell.Some? ==> cell.value in carousel.grid.loaded && cell.value in carousel.grid.windowFrame
      modifies this`finished, this`dummy, this`observing, this`phase, this`completions
      modifies carousel`viewAlpha, carousel`viewInContainer, carousel`tasks, carousel.grid`alpha, target
      ensures Valid() && carousel == old(carousel) && cell == old(cell) && target == old(target)
      ensures duration == old(duration)
      ensures target != null ==>
        target.image == old(target.image) && target.center == old(target.center)
        && target.isHidden == old(target.isHidden) && target.boundsSize == old(target.boundsSize)
      ensures this.finished == finished
      ensures isPresenting ==>
        && observing && carousel.viewAlpha == 1.0
        && carousel.viewInContainer == old(carousel.viewInContainer) && carousel.grid.alpha == old(carousel.grid.alpha)
        && (target.image.None? ==>
              phase == AwaitingImage && completions == old(completions)
              && dummy == Some(old(dummy.value).(frame := carousel.viewBounds))
              && target.alpha == old(target.alpha) && carousel.tasks == old(carousel.tasks))
        && (target.image.Some? ==>
              phase == Done && completions == old(completions) + [finished] && dummy == None
              && target.alpha == 1.0
              && carousel.tasks == old(carousel.tasks) + PresentCompletionTasks(carousel, finished))
      ensures !isPresenting ==>
        && phase == Done && !observing && completions == old(completions) + [finished]
        && carousel.viewAlpha == 0.0 && !carousel.viewInContainer
        && carousel.tasks == old(carousel.tasks)
        && (target != null ==> target.alpha == old(target.alpha))
        && carousel.grid.alpha == (if cell.Some? then old(carousel.grid.alpha)[cell.value := 1.0] else old(carousel.grid.alpha))
        && dummy == (if cell.Some? && old(dummy).Some?
                     then Some(old(dummy.value).(frame := carousel.grid.windowFrame[cell.value]))
                     else old(dummy))
    {
      this.finished := finished;
      if isPresenting {
        FinishPresent();
      } else {
        FinishDismiss();
      }
    }

    /** The end of the present animation: the ghost fills the carousel, the
        carousel becomes opaque and the target image is observed. */
    method FinishPresent()
      requires Valid() && phase == Animating && isPresenting
      modifies this`dummy, this`observing, this`phase, this`completions, carousel`viewAlpha, carousel`tasks, target`alpha
      ensures Valid() && observing && carousel.viewAlpha == 1.0
      ensures target.image.None? ==>
        phase == AwaitingImage && completions == old(completions)
        && dummy == Some(old(dummy.value).(frame := carousel.viewBounds))
        && target.alpha == old(target.alpha) && carousel.tasks == old(carousel.tasks)
      ensures target.image.Some? ==>
        phase == Done && completions == old(completions) + [finished] && dummy == None
        && target.alpha == 1.0
        && carousel.tasks == old(carousel.tasks) + PresentCompletionTasks(carousel, finished)
    {
      dummy := Some(dummy.value.(frame := carousel.viewBounds));
      carousel.viewAlpha := 1.0;
      observing := true;
      phase := AwaitingImage;
      TargetImageObserved();
    }

    /** The end of the dismiss animation and its completion: the ghost moves
        to the cell, the carousel fades out, the cell is shown again and the
        carousel's view leaves the container. */
    method FinishDismiss()
      requires Valid() && phase == Animating && !isPresenting
      requires cell.Some? ==> cell.value in carousel.grid.windowFrame
      modifies this`dummy, this`phase, this`completions, carousel`viewAlpha, carousel`viewInContainer, carousel.grid`alpha
      ensures Valid() && phase == Done && completions == old(completions) + [finished]
      ensures carousel.viewAlpha == 0.0 && !carousel.viewInContainer
      ensures carousel.grid.alpha == (if cell.Some? then old(carousel.grid.alpha)[cell.value := 1.0] else old(carousel.grid.alpha))
      ensures dummy == (if cell.Some? && old(dummy).Some?
                        then Some(old(dummy.value).(frame := carousel.grid.windowFrame[cell.value]))
                        else old(dummy))
    {
      var sourceCell := cell;
      if sourceCell.Some? && dummy.Some? {
        dummy := Some(dummy.value.(frame := carousel.grid.windowFrame[sourceCell.value]));
      }
      carousel.viewAlpha := 0.0;
      if sourceCell.Some? {
        carousel.grid.alpha := carousel.grid.alpha[sourceCell.value := 1.0];
      }
      carousel.viewInContainer := false;
      completions := completions + [finished];
      phase := Done;
    }
  }

  /** ImageViewerTransitionPresentationManager: the transitioning delegate
      that hands out one animator per direction. */
  class ImageViewerTransitionPresentationManager {
    const imageContentMode: ContentMode

    constructor (imageContentMode: ContentMode)
      ensures this.imageContentMode == imageContentMode
    {
      this.imageContentMode := imageContentMode;
    }

    /** `animationController(forPresented:presenting:source:)`. */
    method AnimationControllerForPresented() returns (a: ImageViewerTransitionPresentationAnimator)
      ensures fresh(a) && a.Valid() && a.isPresenting && a.imageContentMode == imageContentMode && a.phase == Idle
    {
      a := new ImageViewerTransitionPresentationAnimator(true, imageContentMode);
    }

    /** `animationController(forDismissed:)`. */
    method AnimationControllerForDismissed() returns (a: ImageViewerTransitionPresentationAnimator)
      ensures fresh(a) && a.Valid() && !a.isPresenting && a.imageContentMode == imageContentMode && a.phase == Idle
    {
      a := new ImageViewerTransitionPresentationAnimator(false, imageContentMode);
    }
  }
}
