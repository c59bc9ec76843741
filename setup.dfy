/** The UIImageView extension: binding a thumbnail to the viewer through a
    TapWithDataRecognizer, rebinding a carousel already on screen, removing the
    temporary transition-rect option, and presenting the carousel on a tap. */
module Setup {
  import opened Types
  import opened Views
  import opened Carousel

  // ---------------------------------------------------------------------------
  // The temporary option

  /** The options with every `.transitionSourceRect` taken out, the others kept
      in order. */
  function WithoutSourceRects(opts: seq<ImageViewerOption>): (r: seq<ImageViewerOption>)
    ensures |r| <= |opts|
    ensures forall i :: 0 <= i < |r| ==> !r[i].TransitionSourceRect?
    decreases |opts|
  {
    if opts == [] then []
    else (if opts[0].TransitionSourceRect? then [] else [opts[0]]) + WithoutSourceRects(opts[1..])
  }

  lemma {:induction false} WithoutSourceRectsAppend(a: seq<ImageViewerOption>, b: seq<ImageViewerOption>)
    ensures WithoutSourceRects(a + b) == WithoutSourceRects(a) + WithoutSourceRects(b)
    decreases |a|
  {
    if a == [] {
      assert a + b == b;
    } else {
      assert (a + b)[0] == a[0];
      assert (a + b)[1..] == a[1..] + b;
      WithoutSourceRectsAppend(a[1..], b);
    }
  }

  lemma {:induction false} WithoutSourceRectsKeepsOthers(opts: seq<ImageViewerOption>)
    requires forall i :: 0 <= i < |opts| ==> !opts[i].TransitionSourceRect?
    ensures WithoutSourceRects(opts) == opts
    decreases |opts|
  {
    if opts != [] {
      WithoutSourceRectsKeepsOthers(opts[1..]);
    }
  }

  /** Filtering keeps exactly the options that are not transition rects, in
      order: an option is kept iff it is not a rect and was in the list. */
  lemma {:induction false} WithoutSourceRectsContents(opts: seq<ImageViewerOption>, o: ImageViewerOption)
    ensures o in WithoutSourceRects(opts) <==> o in opts && !o.TransitionSourceRect?
    decreases |opts|
  {
    if opts != [] {
      WithoutSourceRectsContents(opts[1..], o);
      assert opts == [opts[0]] + opts[1..];
    }
  }

  function CountSourceRects(opts: seq<ImageViewerOption>): nat
    decreases |opts|
  {
    if opts == [] then 0 else (if opts[0].TransitionSourceRect? then 1 else 0) + CountSourceRects(opts[1..])
  }

  /** The nested `removeAllTemporaryOptions()` as written: it walks the
      enumerated copy `copy` and removes by position from the live list,
      skipping positions the live list no longer has. */
  function RemoveLoop(copy: seq<ImageViewerOption>, live: seq<ImageViewerOption>, index: nat): seq<ImageViewerOption>
    decreases |copy| - index
  {
    if index >= |copy| then live
    else if !(|live| > index) then RemoveLoop(copy, live, index + 1)
    else if copy[index].TransitionSourceRect? then RemoveLoop(copy, live[..index] + live[index + 1..], index + 1)
    else RemoveLoop(copy, live, index + 1)
  }

  /** The list `removeAllTemporaryOptions()` leaves behind. */
  function RemoveAllTemporaryOptionsResult(opts: seq<ImageViewerOption>): seq<ImageViewerOption> {
    RemoveLoop(opts, opts, 0)
  }

  /** The loop never adds an option. */
  lemma {:induction false} RemoveLoopNeverGrows(copy: seq<ImageViewerOption>, live: seq<ImageViewerOption>, index: nat)
    ensures |RemoveLoop(copy, live, index)| <= |live|
    decreases |copy| - index
  {
    if index < |copy| {
      if |live| > index && copy[index].TransitionSourceRect? {
        RemoveLoopNeverGrows(copy, live[..index] + live[index + 1..], index + 1);
      } else {
        RemoveLoopNeverGrows(copy, live, index + 1);
      }
    }
  }

  /** Without a rect ahead in the copy, the loop leaves the live list alone. */
  lemma {:induction false} RemoveLoopNoRectAhead(copy: seq<ImageViewerOption>, live: seq<ImageViewerOption>, index: nat)
    requires forall j :: index <= j < |copy| ==> !copy[j].TransitionSourceRect?
    ensures RemoveLoop(copy, live, index) == live
    decreases |copy| - index
  {
    if index < |copy| {
      RemoveLoopNoRectAhead(copy, live, index + 1);
    }
  }

  /** Up to the first rect, the live list is still the copy. */
  lemma {:induction false} RemoveLoopUpToRect(copy: seq<ImageViewerOption>, index: nat, p: nat)
    requires index <= p <= |copy|
    requires forall j :: index <= j < p ==> !copy[j].TransitionSourceRect?
    ensures RemoveLoop(copy, copy, index) == RemoveLoop(copy, copy, p)
    decreases p - index
  {
    if index < p {
      RemoveLoopUpToRect(copy, index + 1, p);
    }
  }

  /** With at most one `.transitionSourceRect`, the loop removes exactly that
      option and keeps the others in order. */
  lemma {:induction false} RemoveAllWithAtMostOneRect(opts: seq<ImageViewerOption>)
    requires CountSourceRects(opts) <= 1
    ensures RemoveAllTemporaryOptionsResult(opts) == WithoutSourceRects(opts)
  {
    if p :| 0 <= p < |opts| && opts[p].TransitionSourceRect? {
      OnlyRect(opts, p);
      RemoveLoopUpToRect(opts, 0, p);
      RemoveLoopNoRectAhead(opts, opts[..p] + opts[p + 1..], p + 1);
      WithoutTheOnlyRect(opts, p);
    } else {
      RemoveLoopNoRectAhead(opts, opts, 0);
      WithoutSourceRectsKeepsOthers(opts);
    }
  }

  /** Filtering a list whose only rect sits at `p` cuts out position `p`. */
  lemma {:induction false} WithoutTheOnlyRect(opts: seq<ImageViewerOption>, p: nat)
    requires p < |opts| && opts[p].TransitionSourceRect?
    requires forall j :: 0 <= j < |opts| && j != p ==> !opts[j].TransitionSourceRect?
    ensures WithoutSourceRects(opts) == opts[..p] + opts[p + 1..]
  {
    assert opts == opts[..p] + ([opts[p]] + opts[p + 1..]);
    WithoutSourceRectsAppend(opts[..p], [opts[p]] + opts[p + 1..]);
    WithoutSourceRectsAppend([opts[p]], opts[p + 1..]);
    WithoutSourceRectsKeepsOthers(opts[..p]);
    WithoutSourceRectsKeepsOthers(opts[p + 1..]);
  }

  /** A list with at most one rect has no other rect than the one at `p`. */
  lemma {:induction false} OnlyRect(opts: seq<ImageViewerOption>, p: nat)
    requires CountSourceRects(opts) <= 1 && p < |opts| && opts[p].TransitionSourceRect?
    ensures forall j :: 0 <= j < |opts| && j != p ==> !opts[j].TransitionSourceRect?
    decreases |opts|
  {
    if p == 0 {
      NoRectsWhenCountZero(opts[1..]);
      forall j | 1 <= j < |opts| ensures !opts[j].TransitionSourceRect? {
        assert opts[j] == opts[1..][j - 1];
      }
    } else {
      if opts[0].TransitionSourceRect? {
        assert opts[1..][p - 1] == opts[p];
        CountPositive(opts[1..], p - 1);
        assert false;
      }
      OnlyRect(opts[1..], p - 1);
      forall j | 1 <= j < |opts| && j != p ensures !opts[j].TransitionSourceRect? {
        assert opts[j] == opts[1..][j - 1];
      }
    }
  }

  lemma {:induction false} NoRectsWhenCountZero(opts: seq<ImageViewerOption>)
    requires CountSourceRects(opts) == 0
    ensures forall j :: 0 <= j < |opts| ==> !opts[j].TransitionSourceRect?
    decreases |opts|
  {
    if opts != [] {
      NoRectsWhenCountZero(opts[1..]);
      forall j | 1 <= j < |opts| ensures !opts[j].TransitionSourceRect? {
        assert opts[j] == opts[1..][j - 1];
      }
    }
  }

  lemma {:induction false} CountPositive(opts: seq<ImageViewerOption>, p: nat)
    requires p < |opts| && opts[p].TransitionSourceRect?
    ensures CountSourceRects(opts) >= 1
    decreases |opts|
  {
    if p > 0 {
      assert opts[1..][p - 1] == opts[p];
      CountPositive(opts[1..], p - 1);
    }
  }

  /** Two rects in a row: the second removal hits the option that slid into
      its place, so a rect survives and `.indexOffset` is lost. */
  lemma {:induction false} RemoveAllShiftsPastAdjacentRects(r: Rect)
    ensures RemoveAllTemporaryOptionsResult([TransitionSourceRect(r), TransitionSourceRect(r), IndexOffset(1)])
      == [TransitionSourceRect(r)]
  {
    var copy := [TransitionSourceRect(r), TransitionSourceRect(r), IndexOffset(1)];
    var live1 := [TransitionSourceRect(r), IndexOffset(1)];
    var live2 := [TransitionSourceRect(r)];
    assert copy[..0] + copy[1..] == live1;
    assert RemoveLoop(copy, copy, 0) == RemoveLoop(copy, live1, 1);
    assert live1[..1] + live1[2..] == live2;
    assert RemoveLoop(copy, live1, 1) == RemoveLoop(copy, live2, 2);
    assert RemoveLoop(copy, live2, 2) == RemoveLoop(copy, live2, 3);
  }

  /** The remove, append, remove sequence of `showImageViewer(transitionSourceRect:)`
      as written. */
  function ShowRectOptionsAsWritten(opts: seq<ImageViewerOption>, rect: Option<Rect>): seq<ImageViewerOption> {
    match rect
    case None => opts
    case Some(r) =>
      RemoveAllTemporaryOptionsResult(RemoveAllTemporaryOptionsResult(opts) + [TransitionSourceRect(r)])
  }

  /** As written, the rect handed in never reaches the carousel: with at most
      one rect beforehand the list ends without any, and nil changes nothing. */
  lemma {:induction false} ShowRectDropsTheRect(opts: seq<ImageViewerOption>, rect: Option<Rect>)
    requires CountSourceRects(opts) <= 1
    ensures rect.None? ==> ShowRectOptionsAsWritten(opts, rect) == opts
    ensures rect.Some? ==> ShowRectOptionsAsWritten(opts, rect) == WithoutSourceRects(opts)
    ensures rect.Some? ==> forall i :: 0 <= i < |ShowRectOptionsAsWritten(opts, rect)| ==>
      !ShowRectOptionsAsWritten(opts, rect)[i].TransitionSourceRect?
  {
    if rect.Some? {
      RemoveAllWithAtMostOneRect(opts);
      var once := WithoutSourceRects(opts) + [TransitionSourceRect(rect.value)];
      CountAppend(WithoutSourceRects(opts), [TransitionSourceRect(rect.value)]);
      CountNoRects(WithoutSourceRects(opts));
      RemoveAllWithAtMostOneRect(once);
      WithoutSourceRectsAppend(WithoutSourceRects(opts), [TransitionSourceRect(rect.value)]);
      WithoutSourceRectsKeepsOthers(WithoutSourceRects(opts));
      assert WithoutSourceRects([TransitionSourceRect(rect.value)]) == [];
    }
  }

  lemma {:induction false} CountAppend(a: seq<ImageViewerOption>, b: seq<ImageViewerOption>)
    ensures CountSourceRects(a + b) == CountSourceRects(a) + CountSourceRects(b)
    decreases |a|
  {
    if a == [] {
      assert a + b == b;
    } else {
      assert (a + b)[0] == a[0];
      assert (a + b)[1..] == a[1..] + b;
      CountAppend(a[1..], b);
    }
  }

  lemma {:induction false} CountNoRects(opts: seq<ImageViewerOption>)
    requires forall i :: 0 <= i < |opts| ==> !opts[i].TransitionSourceRect?
    ensures CountSourceRects(opts) == 0
    decreases |opts|
  {
    if opts != [] {
      CountNoRects(opts[1..]);
    }
  }

  /** The corrected replacement: the stale rects go, the new rect is
      the one and last rect the carousel receives. */
  function ReplaceSourceRect(opts: seq<ImageViewerOption>, rect: Option<Rect>): (r: seq<ImageViewerOption>)
    ensures rect.None? ==> r == opts
    ensures rect.Some? ==> |r| > 0 && r[|r| - 1] == TransitionSourceRect(rect.value)
  {
    match rect
    case None => opts
    case Some(x) => WithoutSourceRects(opts) + [TransitionSourceRect(x)]
  }

  /** The replacement keeps every other option in order and leaves exactly one
      rect, so the carousel's last-wins fold picks the new rect. */
  lemma {:induction false} ReplaceSourceRectIsExact(opts: seq<ImageViewerOption>, x: Rect, s: OptionSlots)
    ensures var r := ReplaceSourceRect(opts, Some(x));
      && WithoutSourceRects(r) == WithoutSourceRects(opts)
      && CountSourceRects(r) == 1
      && FoldOptions(s, r).transitionSourceRect == Some(x)
  {
    var r := ReplaceSourceRect(opts, Some(x));
    WithoutSourceRectsAppend(WithoutSourceRects(opts), [TransitionSourceRect(x)]);
    WithoutSourceRectsKeepsOthers(WithoutSourceRects(opts));
    assert WithoutSourceRects([TransitionSourceRect(x)]) == [];
    CountAppend(WithoutSourceRects(opts), [TransitionSourceRect(x)]);
    CountNoRects(WithoutSourceRects(opts));
    assert CountSourceRects([TransitionSourceRect(x)]) == 1;
    LastOptionWins(s, r, SourceRectSlot, |r| - 1);
  }

  // ---------------------------------------------------------------------------
  // Building data sources

  /** The items loop of `setupImageViewer(images:thumbnailImages:)`. The source
      indexes `thumbnailImages` by the image index, so it needs at least as
      many thumbnails as images. */
  method MakeImageItems(images: seq<Bitmap>, thumbnailImages: seq<Bitmap>) returns (imageItems: seq<ImageItem>)
    requires |thumbnailImages| >= |images|
    ensures |imageItems| == |images|
    ensures forall i :: 0 <= i < |images| ==> imageItems[i] == Image(images[i], thumbnailImages[i])
  {
    imageItems := [];
    var index := 0;
    while index < |images|
      invariant 0 <= index <= |images|
      invariant |imageItems| == index
      invariant forall i :: 0 <= i < index ==> imageItems[i] == Image(images[i], thumbnailImages[i])
    {
      imageItems := imageItems + [Image(images[index], thumbnailImages[index])];
      index := index + 1;
    }
  }

  // ---------------------------------------------------------------------------
  // Controllers

  /** The key window's root controller followed by the chain of presented
      controllers: `chain[i + 1]` is presented by `chain[i]`. */
  type ControllerChain = seq<Controller>

  /** The top-controller walk of `setup`: follow `presentedViewController`
      until there is none. */
  method TopController(chain: ControllerChain) returns (top: Option<Controller>)
    ensures top.None? <==> |chain| == 0
    ensures top.Some? ==> top.value == chain[|chain| - 1]
  {
    if |chain| == 0 {
      return None;
    }
    // `current` is `chain[i]`; `chain[i + 1]` is its presented controller.
    var current := chain[0];
    var i := 0;
    while i + 1 < |chain|
      invariant 0 <= i < |chain| && current == chain[i]
      decreases |chain| - i
    {
      current := chain[i + 1];
      i := i + 1;
    }
    top := Some(current);
  }

  /** The top carousel's set, when the top of the chain is one. */
  function TopCarousel(chain: ControllerChain): (r: set<ImageCarouselViewController>)
    ensures |chain| == 0 ==> r == {}
    ensures |chain| > 0 && chain[|chain| - 1].CarouselController? ==> r == {chain[|chain| - 1].carousel}
    ensures |chain| > 0 && !chain[|chain| - 1].CarouselController? ==> r == {}
  {
    if |chain| > 0 && chain[|chain| - 1].CarouselController? then {chain[|chain| - 1].carousel} else {}
  }

  /** The private `vc` getter: the root controller's presented controller if
      it has one, else the root itself. */
  function FallbackPresenter(chain: ControllerChain): (p: Option<Controller>)
    ensures p.None? <==> |chain| == 0
    ensures |chain| == 1 ==> p == Some(chain[0])
    ensures |chain| > 1 ==> p == Some(chain[1])
  {
    if |chain| == 0 then None else if |chain| > 1 then Some(chain[1]) else Some(chain[0])
  }

  // ---------------------------------------------------------------------------
  // Recognisers and the thumbnail

  /** TapWithDataRecognizer: the tap recogniser that carries the viewer's data. */
  class TapWithDataRecognizer {
    var from: Option<Controller>
    var imageDatasource: Option<ImageDataSource>
    var initialIndex: int
    var options: seq<ImageViewerOption>

    constructor ()
      ensures from == None && imageDatasource == None && initialIndex == 0 && options == []
    {
      from := None;
      imageDatasource := None;
      initialIndex := 0;
      options := [];
    }

    /** The nested `removeAllTemporaryOptions()`. */
    method RemoveAllTemporaryOptions()
      modifies this`options
      ensures options == RemoveAllTemporaryOptionsResult(old(options))
    {
      var copy := options;
      var index := 0;
      while index < |copy|
        invariant 0 <= index <= |copy|
        invariant RemoveLoop(copy, options, index) == RemoveLoop(copy, copy, 0)
        decreases |copy| - index
      {
        var option := copy[index];
        if |options| > index && option.TransitionSourceRect? {
          options := options[..index] + options[index + 1..];
        }
        index := index + 1;
      }
    }

    /** The corrected `showImageViewer(transitionSourceRect:)` step:
        drop the stale rects, then append the new one. */
    method ReplaceTransitionSourceRect(rect: Option<Rect>)
      modifies this`options
      ensures options == ReplaceSourceRect(old(options), rect)
    {
      if rect.None? {
        return;
      }
      var kept := [];
      var i := 0;
      while i < |options|
        invariant 0 <= i <= |options|
        invariant options == old(options)
        invariant kept == WithoutSourceRects(options[..i])
      {
        assert options[..i + 1] == options[..i] + [options[i]];
        WithoutSourceRectsAppend(options[..i], [options[i]]);
        if !options[i].TransitionSourceRect? {
          kept := kept + [options[i]];
        }
        i := i + 1;
      }
      assert options[..|options|] == options;
      options := kept + [TransitionSourceRect(rect.value)];
    }
  }

  datatype GestureRecognizer = TapWithData(tap: TapWithDataRecognizer) | OtherRecognizer(id: nat)

  /** The tap recognisers attached to a view. */
  function Taps(rs: seq<GestureRecognizer>): set<TapWithDataRecognizer> {
    set i | 0 <= i < |rs| && rs[i].TapWithData? :: rs[i].tap
  }

  /** The position of the recogniser the `forEach` of `setup` settles on:
      the last data recogniser. */
  function LastTapIndex(rs: seq<GestureRecognizer>): (r: Option<nat>)
    ensures r.None? <==> forall i :: 0 <= i < |rs| ==> !rs[i].TapWithData?
    ensures r.Some? ==> r.value < |rs| && rs[r.value].TapWithData?
    ensures r.Some? ==> forall j :: r.value < j < |rs| ==> !rs[j].TapWithData?
    decreases |rs|
  {
    if rs == [] then None
    else if rs[|rs| - 1].TapWithData? then Some(|rs| - 1)
    else
      var prefix := rs[..|rs| - 1];
      assert forall j :: 0 <= j < |prefix| ==> prefix[j] == rs[j];
      LastTapIndex(prefix)
  }

  function LastTap(rs: seq<GestureRecognizer>): Option<TapWithDataRecognizer> {
    match LastTapIndex(rs)
    case None => None
    case Some(i) => Some(rs[i].tap)
  }

  /** The position of the recogniser `first(where:)` finds in
      `showImageViewer(transitionSourceRect:)`. */
  function FirstTapIndex(rs: seq<GestureRecognizer>): (r: Option<nat>)
    ensures r.None? <==> forall i :: 0 <= i < |rs| ==> !rs[i].TapWithData?
    ensures r.Some? ==> r.value < |rs| && rs[r.value].TapWithData?
    ensures r.Some? ==> forall j :: 0 <= j < r.value ==> !rs[j].TapWithData?
    decreases |rs|
  {
    if rs == [] then None
    else if rs[0].TapWithData? then Some(0)
    else
      var r := FirstTapIndex(rs[1..]);
      assert forall j :: 1 <= j < |rs| ==> rs[j] == rs[1..][j - 1];
      if r.None? then None else Some(r.value + 1)
  }

  function FirstTap(rs: seq<GestureRecognizer>): Option<TapWithDataRecognizer> {
    match FirstTapIndex(rs)
    case None => None
    case Some(i) => Some(rs[i].tap)
  }

  /** A UIImageView that serves as a thumbnail. */
  class ThumbnailView {
    var image: Option<Bitmap>
    var recognizers: seq<GestureRecognizer>
    var isUserInteractionEnabled: bool
    var contentMode: ContentMode
    var clipsToBounds: bool
    /** The view and its superviews, nearest first. */
    const path: seq<View>
    /** The collection view a carousel opened from this thumbnail syncs. */
    const grid: CollectionView
    /** The interface style and the bounds a carousel opened here gets. */
    const darkStyle: bool
    const screenBounds: Rect

    constructor (image: Option<Bitmap>, path: seq<View>, grid: CollectionView, darkStyle: bool, screenBounds: Rect)
      ensures this.image == image && this.path == path && this.grid == grid
      ensures this.darkStyle == darkStyle && this.screenBounds == screenBounds
      ensures recognizers == [] && !isUserInteractionEnabled && contentMode == ScaleToFill && !clipsToBounds
    {
      this.image := image;
      this.path := path;
      this.grid := grid;
      this.darkStyle := darkStyle;
      this.screenBounds := screenBounds;
      recognizers := [];
      isUserInteractionEnabled := false;
      contentMode := ScaleToFill;
      clipsToBounds := false;
    }

    /** The `forEach` over `gestureRecognizers` in `setup`. */
    method FindTapRecognizer() returns (found: Option<TapWithDataRecognizer>)
      ensures found == LastTap(recognizers)
    {
      found := None;
      var i := 0;
      while i < |recognizers|
        invariant 0 <= i <= |recognizers|
        invariant found == LastTap(recognizers[..i])
      {
        assert recognizers[..i + 1][..i] == recognizers[..i];
        if recognizers[i].TapWithData? {
          found := Some(recognizers[i].tap);
        }
        i := i + 1;
      }
      assert recognizers[..|recognizers|] == recognizers;
    }

    /** `setup(datasource:initialIndex:options:from:)`. `chain` is the key
        window's controller chain (empty without a key window). */
    method Setup(datasource: Option<ImageDataSource>, initialIndex: int, options: seq<ImageViewerOption>,
                 from: Option<Controller>, chain: ControllerChain) returns (tap: TapWithDataRecognizer)
      modifies this`recognizers, this`isUserInteractionEnabled, this`contentMode, this`clipsToBounds
      modifies Taps(recognizers)
      modifies TopCarousel(chain)`imageDatasource, TopCarousel(chain)`tasks
      ensures old(LastTap(recognizers)).Some? ==>
        tap == old(LastTap(recognizers)).value && recognizers == old(recognizers)
      ensures old(LastTap(recognizers)).None? ==>
        fresh(tap) && recognizers == old(recognizers) + [TapWithData(tap)]
      ensures tap.imageDatasource == datasource && tap.initialIndex == initialIndex
      ensures tap.options == options && tap.from == from
      ensures isUserInteractionEnabled && contentMode == ScaleAspectFill && clipsToBounds
      ensures forall t :: t in old(Taps(recognizers)) && t != tap ==> unchanged(t)
      ensures forall c :: c in TopCarousel(chain) ==>
        if old(c.HasGrid())
        then c.imageDatasource == datasource && c.tasks == old(c.tasks) + [ResetThenHide]
        else c.imageDatasource == old(c.imageDatasource) && c.tasks == old(c.tasks)
    {
      var found := FindTapRecognizer();
      isUserInteractionEnabled := true;
      contentMode := ScaleAspectFill;
      clipsToBounds := true;
      if found.None? {
        tap := new TapWithDataRecognizer();
      } else {
        tap := found.value;
      }
      tap.imageDatasource := datasource;
      tap.initialIndex := initialIndex;
      tap.options := options;
      tap.from := from;
      if found.None? {
        recognizers := recognizers + [TapWithData(tap)];
      }
      var top := TopController(chain);
      if top.Some? && top.value.CarouselController? {
        var carousel := top.value.carousel;
        if carousel.HasGrid() {
          carousel.imageDatasource := datasource;
          carousel.tasks := carousel.tasks + [ResetThenHide];
        }
      }
    }

    /** `setupImageViewer(options:from:)`: the shown image, paired with
        itself, as a one-item data source. The source force-unwraps `image`. */
    method SetupImageViewer(options: seq<ImageViewerOption>, from: Option<Controller>, chain: ControllerChain)
      returns (tap: TapWithDataRecognizer)
      requires image.Some?
      modifies this`recognizers, this`isUserInteractionEnabled, this`contentMode, this`clipsToBounds
      modifies Taps(recognizers)
      modifies TopCarousel(chain)`imageDatasource, TopCarousel(chain)`tasks
      ensures tap.imageDatasource == Some(ImageDataSource([Image(image.value, image.value)]))
      ensures tap.initialIndex == 0 && tap.options == options && tap.from == from
      ensures old(LastTap(recognizers)).Some? ==>
        tap == old(LastTap(recognizers)).value && recognizers == old(recognizers)
      ensures old(LastTap(recognizers)).None? ==>
        fresh(tap) && recognizers == old(recognizers) + [TapWithData(tap)]
      ensures isUserInteractionEnabled && contentMode == ScaleAspectFill && clipsToBounds
      ensures forall t :: t in old(Taps(recognizers)) && t != tap ==> unchanged(t)
      ensures forall c :: c in TopCarousel(chain) ==>
        if old(c.HasGrid())
        then c.imageDatasource == Some(ImageDataSource([Image(image.value, image.value)])) && c.tasks == old(c.tasks) + [ResetThenHide]
        else c.imageDatasource == old(c.imageDatasource) && c.tasks == old(c.tasks)
    {
      tap := Setup(Some(ImageDataSource([Image(image.value, image.value)])), 0, options, from, chain);
    }

    /** `setupImageViewer(images:thumbnailImages:initialIndex:options:from:)`. */
    method SetupImageViewerImages(images: seq<Bitmap>, thumbnailImages: seq<Bitmap>, initialIndex: int,
                                  options: seq<ImageViewerOption>, from: Option<Controller>, chain: ControllerChain)
      returns (tap: TapWithDataRecognizer)
      requires |thumbnailImages| >= |images|
      modifies this`recognizers, this`isUserInteractionEnabled, this`contentMode, this`clipsToBounds
      modifies Taps(recognizers)
      modifies TopCarousel(chain)`imageDatasource, TopCarousel(chain)`tasks
      ensures tap.imageDatasource.Some? && tap.imageDatasource.value.NumberOfImages() == |images|
      ensures forall i :: 0 <= i < |images| ==>
        tap.imageDatasource.value.ImageItemAt(i) == Some(Image(images[i], thumbnailImages[i]))
      ensures tap.initialIndex == initialIndex && tap.options == options && tap.from == from
      ensures old(LastTap(recognizers)).Some? ==>
        tap == old(LastTap(recognizers)).value && recognizers == old(recognizers)
      ensures old(LastTap(recognizers)).None? ==>
        fresh(tap) && recognizers == old(recognizers) + [TapWithData(tap)]
      ensures isUserInteractionEnabled && contentMode == ScaleAspectFill && clipsToBounds
      ensures forall t :: t in old(Taps(recognizers)) && t != tap ==> unchanged(t)
      ensures forall c :: c in TopCarousel(chain) ==>
        if old(c.HasGrid())
        then c.imageDatasource == tap.imageDatasource && c.tasks == old(c.tasks) + [ResetThenHide]
        else c.imageDatasource == old(c.imageDatasource) && c.tasks == old(c.tasks)
    {
      var imageItems := MakeImageItems(images, thumbnailImages);
      tap := Setup(Some(ImageDataSource(imageItems)), initialIndex, options, from, chain);
    }

    /** `setupImageViewer(datasource:initialIndex:options:from:)`. */
    method SetupImageViewerDatasource(datasource: ImageDataSource, initialIndex: int,
                                      options: seq<ImageViewerOption>, from: Option<Controller>, chain: ControllerChain)
      returns (tap: TapWithDataRecognizer)
      modifies this`recognizers, this`isUserInteractionEnabled, this`contentMode, this`clipsToBounds
      modifies Taps(recognizers)
      modifies TopCarousel(chain)`imageDatasource, TopCarousel(chain)`tasks
      ensures tap.imageDatasource == Some(datasource)
      ensures tap.initialIndex == initialIndex && tap.options == options && tap.from == from
      ensures old(LastTap(recognizers)).Some? ==>
        tap == old(LastTap(recognizers)).value && recognizers == old(recognizers)
      ensures old(LastTap(recognizers)).None? ==>
        fresh(tap) && recognizers == old(recognizers) + [TapWithData(tap)]
      ensures isUserInteractionEnabled && contentMode == ScaleAspectFill && clipsToBounds
      ensures forall t :: t in old(Taps(recognizers)) && t != tap ==> unchanged(t)
      ensures forall c :: c in TopCarousel(chain) ==>
        if old(c.HasGrid())
        then c.imageDatasource == Some(datasource) && c.tasks == old(c.tasks) + [ResetThenHide]
        else c.imageDatasource == old(c.imageDatasource) && c.tasks == old(c.tasks)
    {
      tap := Setup(Some(datasource), initialIndex, options, from, chain);
    }

    /** The tap handler `showImageViewer(_:)`: a carousel over the recogniser's
        data, presented from `from` or the fallback presenter, with a
        completion that hides the active cell. */
    method ShowImageViewer(sender: TapWithDataRecognizer, chain: ControllerChain)
      returns (carousel: ImageCarouselViewController, presenter: Option<Controller>)
      requires grid.Valid()
      ensures fresh(carousel) && carousel.Valid()
      ensures carousel.sourcePath == path && carousel.grid == grid
      ensures carousel.imageDatasource == sender.imageDatasource && carousel.options == sender.options
      ensures carousel.initialIndex == sender.initialIndex && carousel.currentIndex == sender.initialIndex
      ensures presenter == (if sender.from.Some? then sender.from else FallbackPresenter(chain))
      ensures carousel.hidesCellOnPresent <==> presenter.Some?
      ensures carousel.Slots() == DefaultSlots(FoldOptions(DefaultSlots(ScaleAspectFill), sender.options).imageContentMode)
      ensures carousel.page == null && carousel.tasks == []
      ensures carousel.viewAlpha == 1.0 && !carousel.viewInContainer
      ensures !carousel.chrome.hideControls && carousel.chrome.darkStyle == darkStyle
    {
      carousel := new ImageCarouselViewController(path, sender.imageDatasource, sender.options,
                                                  sender.initialIndex, grid, darkStyle, screenBounds);
      presenter := if sender.from.Some? then sender.from else FallbackPresenter(chain);
      if presenter.Some? {
        carousel.hidesCellOnPresent := true;
      }
    }

    /** `showImageViewer(transitionSourceRect:)`: replaces the temporary rect
        option of the first data recogniser, as written, then opens the viewer. */
    method ShowImageViewerWithRect(transitionSourceRect: Option<Rect>, chain: ControllerChain)
      returns (carousel: ImageCarouselViewController?)
      requires grid.Valid()
      modifies Taps(recognizers)`options
      ensures var first := FirstTap(recognizers);
        && (first.None? ==> carousel == null)
        && (first.Some? ==> first.value.options == ShowRectOptionsAsWritten(old(first.value.options), transitionSourceRect))
        && (first.Some? ==> carousel != null && fresh(carousel) && carousel.options == first.value.options)
        && (first.Some? ==>
              && carousel.imageDatasource == first.value.imageDatasource
              && carousel.initialIndex == first.value.initialIndex && carousel.currentIndex == first.value.initialIndex
              && carousel.tasks == [] && carousel.page == null)
      ensures forall t :: t in Taps(recognizers) && Some(t) != FirstTap(recognizers) ==> t.options == old(t.options)
    {
      var first := FirstTap(recognizers);
      if first.None? {
        return null;
      }
      var tap := first.value;
      if transitionSourceRect.Some? {
        tap.RemoveAllTemporaryOptions();
        tap.options := tap.options + [TransitionSourceRect(transitionSourceRect.value)];
        tap.RemoveAllTemporaryOptions();
      }
      var presenter;
      carousel, presenter := ShowImageViewer(tap, chain);
    }
  }
}
