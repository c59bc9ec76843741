# ImageViewer.swift, modelled in Dafny

This project models the core of ImageViewer.swift, a UIKit image viewer. A thumbnail
(`UIImageView`) is bound to a data source of images. Tapping it presents a paging carousel
(`ImageCarouselViewController`) of zoomable pages (`ImageViewerController`). A custom
transition animates between the thumbnail and the page. While the carousel is up, it keeps
the collection view the thumbnail sits in (the "origin grid") in step: it scrolls the grid to
the shown image and hides that image's cell, so the dismiss animation can fly back into the gap.

The model has six modules:

- `Types`: the declarations the library exports. These are `ImageViewerOption`, `ImageItem`,
  `ImageViewerTheme` and a data source observed through `numberOfImages()` and `imageItem(at:)`.
  It also holds exact-real geometry.
- `Views`: `parentView(of:)` over a superview chain, the image view, and the carousel's chrome.
  The chrome is the navigation bar, the toolbar and the background view, together with the
  `hideControls` flag that drives them. It also holds the origin grid: a row count, the loaded
  rows, the fully visible rows, an alpha per loaded cell, a window frame per loaded cell and a
  log of scrolls.
- `Viewer`: one page. It covers the pan-to-dismiss state machine, the cancel animation that locks
  out pans, the gesture gate, pinch and double-tap zoom, the zoom bounds and the centring insets.
- `Carousel`: the paging rules and the option fold. It also covers the blocks the carousel hands
  to `DispatchQueue.main.async`, kept as an explicit FIFO queue that `Drain` runs, and the
  page-change handler.
- `Transition`: the present and dismiss animator, modelled as a phase machine. It covers the
  guards that abort it, the opacities written when it starts and when its animation ends, the
  ghost image view's frames, and the completion calls.
- `Setup`: the `UIImageView` extension. It covers reuse of the tap recogniser, the item-building
  loop, the walk up the presented-controller chain and the in-place rebinding of a carousel that
  is already on screen. It also models exactly the in-place removal loop of temporary
  transition-rect options, and the tap handler.

Modelling conventions:

- Every main-queue block is a `Task` appended to the carousel's `tasks`. A block captures its
  cell when it is created (`None` stands for a row without a loaded cell). The deferred
  reset-then-hide block of a rebinding `setup` is one task; it queues its reset and hide blocks
  when it runs.
- An animation block is split in two. The writes before the block happen at the call. The
  block's final values and its completion happen at an explicit `AnimationDidFinish` event. The
  page's short cancel animation applies its block at the call and completes at
  `CancelAnimationDidFinish`.
- The key-value observation of the target view's image is an explicit event,
  `TargetImageDidChange`. It is also fired once with the initial value when the present
  animation ends.
- The key window's controller chain is an input sequence. Controller casts (`as?`) become a
  `Controller` datatype with a carousel case.

## Model

| member | source | states |
|---|---|---|
| Types.ImageDataSource.ImageItemAt | Sources/ImageViewer_swift/ImageCarouselViewController.swift:3-6 | an item for exactly the indices the data source holds, and that item is the one at the index |
| Views.ParentView | Sources/ImageViewer_swift/ImageViewerTransitionPresentationManager.swift:260-267 | an answer is a strict ancestor of the requested class; there is no answer exactly when no ancestor has that class |
| Views.ParentViewIsNearest | Sources/ImageViewer_swift/ImageViewerTransitionPresentationManager.swift:260-267 | the answer is the nearest ancestor of the class: when ancestor i is the first with the class, the search returns it |
| Views.ParentViewIsNotSelf | Sources/ImageViewer_swift/ImageViewerTransitionPresentationManager.swift:260-267 | in a chain without repeated views the answer is never the view asked |
| Views.BackgroundColor | Sources/ImageViewer_swift/ImageCarouselViewController.swift:146-152 | black exactly when the controls are hidden or the style is dark, white exactly otherwise |
| Views.ChromeAlpha | Sources/ImageViewer_swift/ImageCarouselViewController.swift:12-21 | alpha 0 exactly when the controls are hidden, 1 exactly when they are shown |
| Views.Chrome.constructor | Sources/ImageViewer_swift/ImageCarouselViewController.swift:84-94 | the background starts opaque, black in dark style and white otherwise, with the controls shown |
| Views.Chrome.PrefersStatusBarHidden | Sources/ImageViewer_swift/ImageCarouselViewController.swift:23-25 | the status bar is hidden exactly when the controls are |
| Views.Chrome.UpdateBackgroundView | Sources/ImageViewer_swift/ImageCarouselViewController.swift:146-152 | the background colour becomes the one the controls and the style call for |
| Views.Chrome.SetHideControls | Sources/ImageViewer_swift/ImageCarouselViewController.swift:12-21 | the `didSet` gives both bars the alpha of the new flag and recolours the background; the style and the background alpha are kept |
| Views.Chrome.TraitCollectionDidChange | Sources/ImageViewer_swift/ImageCarouselViewController.swift:139-144 | a style change recolours the background and leaves the flag and every alpha alone |
| Viewer.Translate | Sources/ImageViewer_swift/ImageViewerController.swift:194-196 | the new centre lies exactly the translation away from the start |
| Viewer.PanAlpha | Sources/ImageViewer_swift/ImageViewerController.swift:199-200 | the pan alpha never exceeds 1, equals 1 exactly when the vertical offset is 0, and is non-negative exactly when the offset is at most the view centre's height |
| Viewer.PanAlphaGoesNegative | Sources/ImageViewer_swift/ImageViewerController.swift:199-200 | the alpha is not clamped: dragging twice the centre's height gives -1 |
| Viewer.DismissBoundary | Sources/ImageViewer_swift/ImageViewerController.swift:208-214 | the threshold is strict: 60 points either way does not dismiss, 61 does |
| Viewer.PinchedZoomScale | Sources/ImageViewer_swift/ImageViewerController.swift:218-222 | the pinched scale lies between the minimum and the old scale; it is the minimum exactly when the old scale is at most 1.5 times it; it strictly drops above the minimum |
| Viewer.DoubleTapZoomScale | Sources/ImageViewer_swift/ImageViewerController.swift:269-273 | the maximum from the minimum, the minimum from any other scale |
| Viewer.DoubleTapToggles | Sources/ImageViewer_swift/ImageViewerController.swift:269-273 | two double taps from the minimum return to the minimum |
| Viewer.ZoomRect | Sources/ImageViewer_swift/ImageViewerController.swift:274-281 | the rectangle is the scroll bounds divided by the new scale, centred on the tapped point |
| Viewer.ZoomRectShowsScale | Sources/ImageViewer_swift/ImageViewerController.swift:274-282 | zooming to that rectangle asks exactly for the new scale on both axes |
| Viewer.MinZoomScale | Sources/ImageViewer_swift/ImageViewerController.swift:256-258 | at the minimum scale the image fits the viewport on both axes and touches it on one |
| Viewer.MaxZoomScale | Sources/ImageViewer_swift/ImageViewerController.swift:259-266 | at the maximum scale the image covers 1.5 times the viewport grown by one point, on both axes |
| Viewer.MaxZoomAboveMin | Sources/ImageViewer_swift/ImageViewerController.swift:256-266 | the maximum scale is strictly above the minimum |
| Viewer.CenteringInset | Sources/ImageViewer_swift/ImageViewerController.swift:287-293 | the inset is never negative; content no larger than the viewport is centred exactly; larger content gets no inset |
| Viewer.PanGateLeavesHorizontalSwipes | Sources/ImageViewer_swift/ImageViewerController.swift:235-243 | a pan no more vertical than horizontal never begins, and reversing a pan's direction does not change the answer |
| Viewer.ImageViewerController.constructor | Sources/ImageViewer_swift/ImageViewerController.swift:52-64 | a page starts with no pan in progress, the origin as last location, no parent and every zoom scale at 1 |
| Viewer.ImageViewerController.HideControls | Sources/ImageViewer_swift/ImageViewerController.swift:34-37 | the page's flag is the carousel's, and false without a carousel |
| Viewer.ImageViewerController.ControlsVisible | Sources/ImageViewer_swift/ImageViewerController.swift:188 | the controls count as visible exactly when there is a navigation bar with positive alpha |
| Viewer.ImageViewerController.GestureRecognizerShouldBegin | Sources/ImageViewer_swift/ImageViewerController.swift:235-243 | a gesture begins exactly when the zoom is at its minimum, it is a pan, and its vertical speed exceeds its horizontal speed |
| Viewer.ImageViewerController.DidPan | Sources/ImageViewer_swift/ImageViewerController.swift:179-215 | nothing changes while animating or zoomed in. Otherwise: a began pan records the centre and the controls' visibility; every other non-cancelled pan moves the image to the last location plus the translation; the background takes the pan alpha and so do the bars when they were visible. An ending pan dismisses exactly past 60 points, and otherwise starts the cancel animation. The controls flag, the background colour and the style are kept, and the frame admits no other write |
| Viewer.ImageViewerController.ExecuteCancelAnimation | Sources/ImageViewer_swift/ImageViewerController.swift:301-312 | the lock is set, the image is back at the view centre and the background is opaque; the bars, the flag, the background colour and the style are kept |
| Viewer.ImageViewerController.CancelAnimationDidFinish | Sources/ImageViewer_swift/ImageViewerController.swift:309-311 | the animation's completion releases the lock |
| Viewer.ImageViewerController.DidPinch | Sources/ImageViewer_swift/ImageViewerController.swift:218-222 | the zoom becomes the pinched scale of the old zoom |
| Viewer.ImageViewerController.DidSingleTap | Sources/ImageViewer_swift/ImageViewerController.swift:225-227 | a single tap flips the carousel's flag, with the bar alphas and the background colour that follow from the new flag and the unchanged style; the background alpha is kept |
| Viewer.ImageViewerController.ZoomInOrOut | Sources/ImageViewer_swift/ImageViewerController.swift:269-282 | the zoom toggles between the minimum and the maximum, and the requested rectangle is the zoom rectangle around the tapped point |
| Viewer.ImageViewerController.UpdateMinMaxZoomScaleForSize | Sources/ImageViewer_swift/ImageViewerController.swift:249-267 | nothing changes for an image with zero width or height; otherwise the minimum is the fit scale, the zoom is reset to it, and the maximum is 1.5 times the page's `maxZoomScale`, strictly above the minimum |
| Viewer.ImageViewerController.UpdateConstraintsForSize | Sources/ImageViewer_swift/ImageViewerController.swift:284-295 | the top and bottom constants are the vertical centring inset; the leading and trailing constants are the horizontal one |
| Carousel.ViewControllerBefore | Sources/ImageViewer_swift/ImageCarouselViewController.swift:365-377 | a page exists exactly when there is a data source and the index is positive; it has index i-1 and that index's item |
| Carousel.ViewControllerAfter | Sources/ImageViewer_swift/ImageCarouselViewController.swift:379-391 | a page exists exactly when there is a data source and i <= count-2; it has index i+1 and that index's item |
| Carousel.PagingStopsAtTheEnds | Sources/ImageViewer_swift/ImageCarouselViewController.swift:365-391 | within the data, paging back stops exactly at 0 and paging forward exactly at the last index; every page it makes has an item |
| Carousel.NoPagingWithOneImage | Sources/ImageViewer_swift/ImageCarouselViewController.swift:379-391 | with zero or one image there is never a next page |
| Carousel.PagingRoundTrip | Sources/ImageViewer_swift/ImageCarouselViewController.swift:365-391 | the page after a page's predecessor is the page itself, and the same holds the other way round |
| Carousel.NumberOfPages | Sources/ImageViewer_swift/ImageCarouselViewController.swift:169 | the data source's count, or 0 without one |
| Carousel.LastWriter | Sources/ImageViewer_swift/ImageCarouselViewController.swift:237-274 | the position of the last option that writes a slot, or None when none writes it |
| Carousel.SlotAfterFold | Sources/ImageViewer_swift/ImageCarouselViewController.swift:237-274 | after applying the options, each slot holds what its last writer wrote, or its old value |
| Carousel.LastOptionWins | Sources/ImageViewer_swift/ImageCarouselViewController.swift:248-271 | the last option that targets a slot (index offset, transition rect, theme, content mode, right item) decides it |
| Carousel.UntargetedSlotUnchanged | Sources/ImageViewer_swift/ImageCarouselViewController.swift:237-274 | a slot no option targets keeps its old value |
| Carousel.CloseIconNeedsLeftButton | Sources/ImageViewer_swift/ImageCarouselViewController.swift:256-257 | a close icon only retitles an existing left button: no option creates or removes one, and without any close icon the button is untouched |
| Carousel.LeftButtonAfterFold | Sources/ImageViewer_swift/ImageCarouselViewController.swift:256-257 | the left button afterwards depends only on whether one existed and on the options |
| Carousel.FoldIdempotent | Sources/ImageViewer_swift/ImageCarouselViewController.swift:237-274 | applying the same options twice gives the same state as applying them once |
| Carousel.ResetTasksShape | Sources/ImageViewer_swift/ImageCarouselViewController.swift:464-473 | one opacity block per grid row, in row order, each setting alpha 1 on that row's cell (or on no cell when the row has none loaded); none of them rebinds or scrolls |
| Carousel.HideTasksShape | Sources/ImageViewer_swift/ImageCarouselViewController.swift:486-493 | one opacity block for the active row, which neither rebinds nor scrolls |
| Carousel.ScrollTasksShape | Sources/ImageViewer_swift/ImageCarouselViewController.swift:425-453 | a scroll to the active row is queued exactly when its cell is loaded and either is not fully visible or the caller did not ask to scroll only when needed |
| Carousel.ResetShowsLoadedCells | Sources/ImageViewer_swift/ImageCarouselViewController.swift:464-473 | running the reset blocks makes every loaded cell of the grid opaque and leaves every other entry alone |
| Carousel.DrainAfterPageChange | Sources/ImageViewer_swift/ImageCarouselViewController.swift:411-494 | whatever plain blocks came first, draining reset, scroll and hide leaves the active row's cell at alpha 0 and every other loaded cell at alpha 1; the scroll log gains exactly the queued scroll |
| Carousel.RebindTasks | Sources/ImageViewer_swift/UIImageView_Extensions.swift:153-160 | the blocks the deferred rebinding block queues (the reset of every row, then the hide) contain no further rebinding block, so draining ends |
| Carousel.DrainAfterRebind | Sources/ImageViewer_swift/UIImageView_Extensions.swift:153-160 | draining the rebinding block behind plain blocks leaves only the active row's cell hidden |
| Carousel.ImageCarouselViewController.constructor | Sources/ImageViewer_swift/ImageCarouselViewController.swift:100-122 | the content mode is the last `.contentMode` option, or aspect fill; the current index starts at the initial index, and nothing is queued |
| Carousel.ImageCarouselViewController.Expansion | Sources/ImageViewer_swift/UIImageView_Extensions.swift:153-160 | the blocks the deferred rebinding block queues are all plain opacity or scroll blocks |
| Carousel.ImageCarouselViewController.SourceView | Sources/ImageViewer_swift/ImageCarouselViewController.swift:28-33 | the thumbnail exactly while a page is shown whose index is the initial index |
| Carousel.ImageCarouselViewController.TargetView | Sources/ImageViewer_swift/ImageCarouselViewController.swift:35-40 | the shown page's image view, or none without a page |
| Carousel.ImageCarouselViewController.PrefersStatusBarHidden | Sources/ImageViewer_swift/ImageCarouselViewController.swift:23-25 | the status bar is hidden exactly when the controls are |
| Carousel.ImageCarouselViewController.ApplyOptions | Sources/ImageViewer_swift/ImageCarouselViewController.swift:237-274 | the option slots afterwards are the fold of the options over the slots before |
| Carousel.ImageCarouselViewController.AddToolBar | Sources/ImageViewer_swift/ImageCarouselViewController.swift:168-172 | the page control counts the data source's images, or 0; it is hidden exactly for one page; it shows the current index |
| Carousel.ImageCarouselViewController.ResetParentScrollViewCellVisibility | Sources/ImageViewer_swift/ImageCarouselViewController.swift:455-474 | with a grid, the reset blocks for every row are queued; without one, nothing is |
| Carousel.ImageCarouselViewController.HideCurrentParentScrollViewCell | Sources/ImageViewer_swift/ImageCarouselViewController.swift:476-494 | with a grid, the hide block for the active row is queued; without one, nothing is |
| Carousel.ImageCarouselViewController.ScrollParentScrollViewToCurrentItem | Sources/ImageViewer_swift/ImageCarouselViewController.swift:425-453 | with a grid, the scroll blocks for the active row are queued; without one, nothing is |
| Carousel.ImageCarouselViewController.DidFinishAnimating | Sources/ImageViewer_swift/ImageCarouselViewController.swift:396-423 | nothing changes unless the turn completed, a page is shown and there is a grid; then the current index and the page control take the page's index, and reset, scroll and hide are queued for the row computed from the new index |
| Carousel.ImageCarouselViewController.Drain | Sources/ImageViewer_swift/ImageCarouselViewController.swift:446-494 | the main queue runs every queued block, including those queued while it runs, in FIFO order; the grid ends as the reference run of the queue says |
| Carousel.ImageCarouselViewController.DrainAfterRebinding | Sources/ImageViewer_swift/UIImageView_Extensions.swift:153-160 | after a rebinding, once the queue is drained only the active row's cell is hidden |
| Carousel.ImageCarouselViewController.ShowPage | Sources/ImageViewer_swift/ImageCarouselViewController.swift:289-294 | the page becomes the shown one and reaches the carousel's chrome |
| Carousel.ImageCarouselViewController.FinishPageTurnAndDrain | Sources/ImageViewer_swift/ImageCarouselViewController.swift:396-423 | after a completed page turn and a drain, the current index is the page's and only the cell of the new active row is hidden |
| Transition.ControllerKey | Sources/ImageViewer_swift/ImageViewerTransitionPresentationManager.swift:46 | presenting reads the `.to` controller and dismissing the `.from` one |
| Transition.TransitionContext.ViewController | Sources/ImageViewer_swift/ImageViewerTransitionPresentationManager.swift:47 | each key gives the controller held under it |
| Transition.AsCarousel | Sources/ImageViewer_swift/ImageViewerTransitionPresentationManager.swift:92 | the cast succeeds exactly on a carousel, and yields that carousel |
| Transition.SourceImage | Sources/ImageViewer_swift/ImageViewerTransitionPresentationManager.swift:122 | an image comes only from a source view, and is that view's image |
| Transition.ImageViewerTransitionPresentationAnimator.constructor | Sources/ImageViewer_swift/ImageViewerTransitionPresentationManager.swift:30-34 | a fresh animator keeps its direction and content mode, and has not started |
| Transition.ImageViewerTransitionPresentationAnimator.AnimateTransition | Sources/ImageViewer_swift/ImageViewerTransitionPresentationManager.swift:45-72 | the duration is 0.25; without a carousel under the direction's key the transition aborts with nothing else written; presenting animates exactly when the present guards pass, dismissing exactly when there is a grid, each with the writes of `PresentAnimation` or `DismissAnimation` and no others; the carousel stays valid and no completion is called yet |
| Transition.ImageViewerTransitionPresentationAnimator.PresentAnimation | Sources/ImageViewer_swift/ImageViewerTransitionPresentationManager.swift:85-126 | without a grid, a loaded active cell or a target view it aborts with nothing written and the carousel, cell and target kept; otherwise the cell, the carousel and the target go to alpha 0, the carousel joins the container, and the ghost starts at the custom rect or else the cell's window frame, showing the source image |
| Transition.ImageViewerTransitionPresentationAnimator.DismissAnimation | Sources/ImageViewer_swift/ImageViewerTransitionPresentationManager.swift:142-168 | without a grid it aborts with nothing written; otherwise the ghost starts at the target's frame with its image, or at the carousel's bounds with none; the target is hidden and the carousel is opaque |
| Transition.ImageViewerTransitionPresentationAnimator.TargetImageObserved | Sources/ImageViewer_swift/ImageViewerTransitionPresentationManager.swift:132-138 | while the target has no image nothing happens; once it has one the target is opaque, the ghost is gone, the completion is called once with the animation's flag, and the completion's hide and scroll blocks are queued |
| Transition.ImageViewerTransitionPresentationAnimator.TargetImageDidChange | Sources/ImageViewer_swift/ImageViewerTransitionPresentationManager.swift:132-138 | assigning an image completes the presentation: the ghost is gone, the target is opaque, the completion is recorded and the cell-hiding block is queued. Assigning none leaves the phase, the ghost, the target's alpha, the completions and the queue alone |
| Transition.ImageViewerTransitionPresentationAnimator.AnimationDidFinish | Sources/ImageViewer_swift/ImageViewerTransitionPresentationManager.swift:128-179 | presenting: the ghost fills the carousel's bounds, the carousel is opaque, and the transition completes only if the target already has an image. Dismissing: the ghost moves to the cell's frame when there is a cell, the carousel fades out and leaves the container, the cell is opaque again and the completion is called. The duration, the carousel, the cell and the target are kept in both directions |
| Transition.ImageViewerTransitionPresentationManager.constructor | Sources/ImageViewer_swift/ImageViewerTransitionPresentationManager.swift:200-202 | the manager keeps the content mode |
| Transition.ImageViewerTransitionPresentationManager.AnimationControllerForPresented | Sources/ImageViewer_swift/ImageViewerTransitionPresentationManager.swift:220-226 | a fresh presenting animator with the manager's content mode |
| Transition.ImageViewerTransitionPresentationManager.AnimationControllerForDismissed | Sources/ImageViewer_swift/ImageViewerTransitionPresentationManager.swift:228-232 | a fresh dismissing animator with the manager's content mode |
| Setup.WithoutSourceRects | Sources/ImageViewer_swift/UIImageView_Extensions.swift:172-186 | the corrected removal: no rect is left and the list never grows |
| Setup.WithoutSourceRectsContents | Sources/ImageViewer_swift/UIImageView_Extensions.swift:172-186 | an option survives the corrected removal exactly when it was in the list and is not a rect |
| Setup.RemoveLoopNeverGrows | Sources/ImageViewer_swift/UIImageView_Extensions.swift:172-186 | the loop as written never adds an option |
| Setup.RemoveAllWithAtMostOneRect | Sources/ImageViewer_swift/UIImageView_Extensions.swift:172-186 | with at most one rect, the loop as written removes exactly that option and keeps the rest in order |
| Setup.RemoveAllShiftsPastAdjacentRects | Sources/ImageViewer_swift/UIImageView_Extensions.swift:172-186 | with two adjacent rects before an index offset, the loop as written keeps a rect and drops the index offset |
| Setup.ShowRectDropsTheRect | Sources/ImageViewer_swift/UIImageView_Extensions.swift:188-192 | as written, with at most one rect beforehand, a given rect leaves the list without any rect; a nil rect leaves it unchanged |
| Setup.ReplaceSourceRect | Sources/ImageViewer_swift/UIImageView_Extensions.swift:188-192 | the corrected sequence: a nil rect changes nothing, a given rect ends the list |
| Setup.ReplaceSourceRectIsExact | Sources/ImageViewer_swift/UIImageView_Extensions.swift:188-192 | the corrected sequence keeps every other option in order and leaves exactly one rect, which the carousel's fold picks |
| Setup.MakeImageItems | Sources/ImageViewer_swift/UIImageView_Extensions.swift:55-62 | one item per image, item i pairing image i with thumbnail i |
| Setup.TopController | Sources/ImageViewer_swift/UIImageView_Extensions.swift:140-143 | the walk follows each controller to the one it presents, ends at the last one, and finds none without a key window |
| Setup.TopCarousel | Sources/ImageViewer_swift/UIImageView_Extensions.swift:145-146 | the top controller when it is a carousel, and nothing otherwise |
| Setup.FallbackPresenter | Sources/ImageViewer_swift/UIImageView_Extensions.swift:13-17 | the root's presented controller when there is one, or else the root; none without a key window |
| Setup.LastTapIndex | Sources/ImageViewer_swift/UIImageView_Extensions.swift:112-118 | the position of the last data recogniser, or None when there is none |
| Setup.FirstTapIndex | Sources/ImageViewer_swift/UIImageView_Extensions.swift:168-170 | the position of the first data recogniser, or None when there is none |
| Setup.TapWithDataRecognizer.constructor | Sources/ImageViewer_swift/UIImageView_Extensions.swift:6-11 | a new recogniser has no data source, index 0 and no options |
| Setup.TapWithDataRecognizer.RemoveAllTemporaryOptions | Sources/ImageViewer_swift/UIImageView_Extensions.swift:172-186 | the options after the loop are the exact model of enumerating a copy while removing by position from the live list |
| Setup.TapWithDataRecognizer.ReplaceTransitionSourceRect | Sources/ImageViewer_swift/UIImageView_Extensions.swift:188-192 | the corrected step on a recogniser: its options become the corrected replacement of the old ones |
| Setup.ThumbnailView.FindTapRecognizer | Sources/ImageViewer_swift/UIImageView_Extensions.swift:112-118 | the loop settles on the last data recogniser |
| Setup.ThumbnailView.Setup | Sources/ImageViewer_swift/UIImageView_Extensions.swift:106-163 | an existing data recogniser is reused and the list is unchanged; otherwise exactly one fresh recogniser is appended. Its data source, index, options and presenter are overwritten, and the view becomes interactive, aspect fill and clipping. A top carousel with a grid gets the data source in place and one deferred reset-then-hide block; any other top carousel is untouched. Every other data recogniser is unchanged |
| Setup.ThumbnailView.SetupImageViewer | Sources/ImageViewer_swift/UIImageView_Extensions.swift:19-26 | a one-item data source pairing the shown image with itself, at index 0, with everything `Setup` promises about reuse or append, the view flags, the other recognisers and the top carousel |
| Setup.ThumbnailView.SetupImageViewerImages | Sources/ImageViewer_swift/UIImageView_Extensions.swift:48-71 | a data source of as many items as images, item i pairing image i with thumbnail i, with everything `Setup` promises about reuse or append, the view flags, the other recognisers and the top carousel |
| Setup.ThumbnailView.SetupImageViewerDatasource | Sources/ImageViewer_swift/UIImageView_Extensions.swift:93-104 | the given data source, index and options are bound, with everything `Setup` promises about reuse or append, the view flags, the other recognisers and the top carousel |
| Setup.ThumbnailView.ShowImageViewer | Sources/ImageViewer_swift/UIImageView_Extensions.swift:198-212 | a new carousel over the recogniser's data source, options and index, with the options' content mode, an empty queue and no page, presented from `from` or the fallback; it hides the active cell on present exactly when there is a presenter |
| Setup.ThumbnailView.ShowImageViewerWithRect | Sources/ImageViewer_swift/UIImageView_Extensions.swift:165-196 | without a data recogniser nothing happens; otherwise the first one's options go through remove, append, remove as written, and the carousel opens with them and with that recogniser's data source and index, and an empty queue. Every other data recogniser keeps its options |

## Left out

- Chrome construction and Auto Layout (`addNavBar`, the rest of `addToolBar`, `addBackgroundView`, the page control's constraints) are UIKit view plumbing. Only the page-count rule is modelled.
- `addNavBar` is not modelled. On iOS 13 and later it sets the right bar item to a Done button that dismisses the viewer. It runs in the block `viewDidLoad` queues after `applyOptions`, so on those systems the Done button replaces the right item that `applyOptions` set before the bar is shown. The model's `rightNavItem` is the item as `applyOptions` left it.
- The share sheet, the delete and done selectors, and `dismissView` are calls into the framework's presentation machinery.
- `viewDidLoad` is not a member of its own. Its `applyOptions` call is `ApplyOptions`. Its deferred `addToolBar` is `AddToolBar`, run on demand rather than as a queued block. Its initial `setViewControllers` is `ShowPage` with a page built from `ImageItemAt`.
- `deinit`, which restores the thumbnail's alpha, is left out: the model does not track controller lifetimes.
- `weak` and `unowned` references are treated as always alive. So the animator is always present when the observation fires, and the data source and source thumbnail never disappear behind the carousel's back.
- The `UIPresentationController`, its frame, and the adaptive-presentation delegate are framework glue.
- The SDWebImage `url` item and the setup overloads behind `canImport(SDWebImage)` depend on an external image loader.
- Key-window and root-controller discovery is an input: the controller chain. A thumbnail's `view` is always its image view.
- `UIView.animate` timing and curves are not modelled. Only the state before and after a block counts, with its completion as a discrete event.
- The animations of the `hideControls` `didSet` are taken to apply at once. `setNeedsStatusBarAppearanceUpdate` is not modelled.
- Key-value observation is reduced to the `TargetImageDidChange` event on the captured target view. The observation is never invalidated, and only the latest animator's observation is modelled.
- CGFloat rounding is not modelled: coordinates are exact reals. `frameRelativeToWindow()` is a per-cell map of the grid, and a parameter for the target view. "Fully visible" is a set of rows.
- Viewer.ImageViewerController.DidPan: requires a view centre above 0, which the pan alpha's division needs, where the code would divide by zero. `dismiss(animated:)` is recorded as a flag, not carried out.
- Viewer.ImageViewerController.UpdateMinMaxZoomScaleForSize: requires a positive viewport and non-negative image bounds, which any laid-out view has.
- Viewer.ImageViewerController.ZoomInOrOut: the scroll view's animated zoom is taken to land on exactly the requested scale.
- `sizeToFit()` and `layoutIfNeeded()` belong to UIKit. The fitted frame is a parameter of `UpdateConstraintsForSize`.
- The dummy view's corner radius and both tint colours are cosmetic and not modelled. The theme's tint colour is transcribed but unused.
- The grid does not load or unload cells while the viewer runs, and its scrolls do not change which cells are loaded.
- Carousel.ImageCarouselViewController.DrainAfterRebinding and Carousel.ImageCarouselViewController.FinishPageTurnAndDrain: they require that the blocks already queued are plain opacity or scroll blocks, that is, that no earlier rebinding block is still pending.
- Setup.ThumbnailView.SetupImageViewer: requires an image, where the code force-unwraps `image!` and would trap without one.
- Setup.MakeImageItems: requires at least as many thumbnails as images, where `thumbnailImages[index]` would trap out of range.
- Setup.ThumbnailView.SetupImageViewerImages: the same requirement, for the same trap.
- `addGestureRecognizer` of a recogniser the view already has is taken to leave the list unchanged.
- Transition.ImageViewerTransitionPresentationAnimator.TargetImageObserved: the tap handler's present completion (hide the cell) is taken to run inside `completeTransition`, before `animateTransition`'s scroll. That hide block is queued only when `finished` is true, because `present`'s completion runs only after a transition that completed.
- Transition.ImageViewerTransitionPresentationAnimator.AnimateTransition: the duration is recorded even when there is no controller, where the code returns before asking for it.
- Types.ImageDataSource.ImageItemAt: an index without an item gives `None`. The protocol leaves that case to the implementation, and the shipped data source is not part of this model.
- The pan alpha is not clamped, and the pan gate does not consult `isAnimating` (`PanAlphaGoesNegative`, `GestureRecognizerShouldBegin`). `DidPan` itself ignores pans during the cancel animation.
- `showImageViewer(transitionSourceRect:)` defaults to `.zero`, a non-nil rectangle. The default is not modelled; callers pass the rectangle, or nil.

## Findings

| source | as written | input that shows it | evidently intended | confidence | as-written member | corrected member |
|---|---|---|---|---|---|---|
| Sources/ImageViewer_swift/UIImageView_Extensions.swift:172-186 | enumerates a copy of the options and removes by the copy's position from the live list, so each removal shifts the later options one place down | options `[.transitionSourceRect(r), .transitionSourceRect(r), .indexOffset(1)]` end as `[.transitionSourceRect(r)]`: a rect survives and the index offset is lost | remove every transition-rect option and keep the others in order | high, not executed | Setup.RemoveAllShiftsPastAdjacentRects | Setup.WithoutSourceRectsContents |
| Sources/ImageViewer_swift/UIImageView_Extensions.swift:188-192 | removes the temporary rects, appends the new rect, then removes the rects again before presenting | any options with at most one rect, and a rect argument `r`: the carousel receives no `.transitionSourceRect` at all, so `r` is never used | replace the old rect with the new one, so the carousel's fold picks `r`; the helper's name calls the rect temporary, which suggests the second removal was meant to come after presenting | medium, not executed | Setup.ShowRectDropsTheRect | Setup.ReplaceSourceRectIsExact |
