/** The UIKit views the viewer reads and writes: the superview chain searched by
    `parentView(of:)`, image views, the carousel's chrome and the origin grid
    (the collection view that holds the thumbnails). */
module Views {
  import opened Types

  /** The classes `parentView(of:)` is asked for, as runtime type tests. */
  datatype ViewKind = CollectionViewKind | ImageViewKind | PlainViewKind

  /** A view as seen in a superview chain: its identity, its class and, for an
      image view, the image it shows. */
  datatype View = View(id: nat, kind: ViewKind, image: Option<Bitmap>)

  /** `UIView.parentView(of:)`. `path[0]` is the view asked, `path[i + 1]` the
      superview of `path[i]`; the chain ends where a view has no superview.
      The answer is a strict ancestor of the requested class, or None when
      no ancestor has it. */
  function ParentView(path: seq<View>, k: ViewKind): (r: Option<View>)
    ensures r.Some? ==> |path| > 1 && r.value.kind == k && r.value in path[1..]
    ensures r.None? <==> forall i :: 1 <= i < |path| ==> path[i].kind != k
    decreases |path|
  {
    if |path| < 2 then None
    else if path[1].kind == k then Some(path[1])
    else
      var up := ParentView(path[1..], k);
      assert path[1..][1..] == path[2..];
      assert forall i :: 2 <= i < |path| ==> path[i] == path[1..][i - 1];
      up
  }

  /** The search stops at the nearest ancestor of the class. */
  lemma {:induction false} ParentViewIsNearest(path: seq<View>, k: ViewKind, i: nat)
    requires 1 <= i < |path| && path[i].kind == k
    requires forall j :: 1 <= j < i ==> path[j].kind != k
    ensures ParentView(path, k) == Some(path[i])
    decreases i
  {
    if i > 1 {
      assert path[1..][i - 1] == path[i];
      forall j | 1 <= j < i - 1 ensures path[1..][j].kind != k {
        assert path[1..][j] == path[j + 1];
      }
      ParentViewIsNearest(path[1..], k, i - 1);
    }
  }

  /** In a chain without repeated views the answer is never the view itself. */
  lemma {:induction false} ParentViewIsNotSelf(path: seq<View>, k: ViewKind)
    requires |path| > 0
    requires forall i :: 1 <= i < |path| ==> path[i] != path[0]
    ensures ParentView(path, k) != Some(path[0])
  {
    var r := ParentView(path, k);
    if r.Some? {
      var i :| 0 <= i < |path[1..]| && path[1..][i] == r.value;
      assert path[i + 1] == r.value;
    }
  }

  /** A UIImageView's state as the viewer writes it. */
  class ImageView {
    var center: Point
    var alpha: real
    var isHidden: bool
    var image: Option<Bitmap>
    /** `bounds.size`, as the layout pass left it. */
    var boundsSize: Size

    constructor (center: Point, image: Option<Bitmap>, boundsSize: Size)
      ensures this.center == center && this.image == image && this.boundsSize == boundsSize
      ensures alpha == 1.0 && !isHidden
    {
      this.center := center;
      this.image := image;
      this.boundsSize := boundsSize;
      alpha := 1.0;
      isHidden := false;
    }
  }

  /** The background colour: black while the controls are hidden or the
      interface style is dark, white otherwise. */
  function BackgroundColor(hideControls: bool, darkStyle: bool): (c: Color)
    ensures c == Black <==> hideControls || darkStyle
    ensures c == White <==> !hideControls && !darkStyle
  {
    if hideControls || darkStyle then Black else White
  }

  /** The alpha `hideControls` gives the navigation bar and the toolbar. */
  function ChromeAlpha(hideControls: bool): (a: real)
    ensures a == 0.0 <==> hideControls
    ensures a == 1.0 <==> !hideControls
  {
    if hideControls then 0.0 else 1.0
  }

  /** The carousel's chrome: navigation bar, toolbar, background view and the
      `hideControls` flag whose `didSet` drives them. A page reaches it through
      its parent carousel. */
  class Chrome {
    var hideControls: bool
    var navBarAlpha: real
    var toolBarAlpha: real
    var backgroundAlpha: real
    var backgroundColor: Color
    /** `traitCollection.userInterfaceStyle == .dark`. */
    var darkStyle: bool

    constructor (darkStyle: bool)
      ensures this.darkStyle == darkStyle && !hideControls
      ensures navBarAlpha == 1.0 && toolBarAlpha == 1.0 && backgroundAlpha == 1.0
      ensures backgroundColor == (if darkStyle then Black else White)
    {
      this.darkStyle := darkStyle;
      hideControls := false;
      navBarAlpha, toolBarAlpha, backgroundAlpha := 1.0, 1.0, 1.0;
      backgroundColor := if darkStyle then Black else White;
    }

    /** `prefersStatusBarHidden`. */
    function PrefersStatusBarHidden(): (hidden: bool)
      reads this
      ensures hidden <==> hideControls
    {
      hideControls
    }

    /** `updateBackgroundView()`. */
    method UpdateBackgroundView()
      modifies this`backgroundColor
      ensures backgroundColor == BackgroundColor(hideControls, darkStyle)
    {
      if hideControls || darkStyle {
        backgroundColor := Black;
      } else {
        backgroundColor := White;
      }
    }

    /** Assigning `hideControls`: the `didSet` hides or shows both bars and
        recolours the background. */
    method SetHideControls(hidden: bool)
      modifies this
      ensures hideControls == hidden && darkStyle == old(darkStyle)
      ensures navBarAlpha == ChromeAlpha(hidden) && toolBarAlpha == ChromeAlpha(hidden)
      ensures backgroundColor == BackgroundColor(hidden, darkStyle)
      ensures backgroundAlpha == old(backgroundAlpha)
    {
      hideControls := hidden;
      navBarAlpha := if hideControls then 0.0 else 1.0;
      toolBarAlpha := if hideControls then 0.0 else 1.0;
      UpdateBackgroundView();
    }

    /** `traitCollectionDidChange`: the style changed, the background follows. */
    method TraitCollectionDidChange(dark: bool)
      modifies this
      ensures darkStyle == dark && hideControls == old(hideControls)
      ensures backgroundColor == BackgroundColor(hideControls, dark)
      ensures navBarAlpha == old(navBarAlpha) && toolBarAlpha == old(toolBarAlpha)
      ensures backgroundAlpha == old(backgroundAlpha)
    {
      darkStyle := dark;
      UpdateBackgroundView();
    }
  }

  /** The origin grid: the UICollectionView (section 0) that shows the
      thumbnails. Only the state the viewer touches is modelled. */
  class CollectionView {
    /** `numberOfItems(inSection: 0)`. */
    var rowCount: nat
    /** Rows whose cell `cellForItem(at:)` returns. */
    var loaded: set<int>
    /** Rows whose cell frame lies inside the collection view's bounds. */
    var fullyVisible: set<int>
    /** The alpha of each loaded cell's content view. */
    var alpha: map<int, real>
    /** The window frame (`frameRelativeToWindow()`) of each loaded cell. */
    var windowFrame: map<int, Rect>
    /** The rows passed to `scrollToItem(at:at:animated:)`, in order. */
    var scrolls: seq<int>

    ghost predicate Valid()
      reads this
    {
      && (forall r :: r in loaded ==> 0 <= r < rowCount)
      && (forall r :: r in loaded ==> r in alpha && r in windowFrame)
      && fullyVisible <= loaded
    }

    constructor (rowCount: nat, loaded: set<int>, fullyVisible: set<int>, windowFrame: map<int, Rect>)
      requires forall r :: r in loaded ==> 0 <= r < rowCount && r in windowFrame
      requires fullyVisible <= loaded
      ensures Valid()
      ensures this.rowCount == rowCount && this.loaded == loaded && this.fullyVisible == fullyVisible
      ensures this.windowFrame == windowFrame && scrolls == []
      ensures forall r :: r in loaded ==> alpha[r] == 1.0
    {
      this.rowCount := rowCount;
      this.loaded := loaded;
      this.fullyVisible := fullyVisible;
      this.windowFrame := windowFrame;
      alpha := map r | r in loaded :: 1.0;
      scrolls := [];
    }
  }
}
