/** The carousel (ImageCarouselViewController): paging by index, the option
    fold, the page indicator rule, and the synchronisation of the origin grid
    through deferred main-queue work. */
module Carousel {
  import opened Types
  import opened Views
  import opened Viewer

  // ---------------------------------------------------------------------------
  // Paging

  /** The page `viewControllerBefore`/`viewControllerAfter` builds: an
      ImageViewerController with this index and item. */
  datatype PageRequest = PageRequest(index: int, item: Option<ImageItem>)

  /** `viewControllerBefore`: nothing without a data source or at index 0. */
  function ViewControllerBefore(ds: Option<ImageDataSource>, i: int): (r: Option<PageRequest>)
    ensures r.Some? <==> ds.Some? && i > 0
    ensures r.Some? ==> r.value.index == i - 1 && r.value.item == ds.value.ImageItemAt(i - 1)
  {
    if ds.None? then None
    else if !(i > 0) then None
    else Some(PageRequest(i - 1, ds.value.ImageItemAt(i - 1)))
  }

  /** `viewControllerAfter`: a page only while `i <= count - 2`. */
  function ViewControllerAfter(ds: Option<ImageDataSource>, i: int): (r: Option<PageRequest>)
    ensures r.Some? <==> ds.Some? && i <= ds.value.NumberOfImages() - 2
    ensures r.Some? ==> r.value.index == i + 1 && r.value.item == ds.value.ImageItemAt(i + 1)
  {
    if ds.None? then None
    else if !(i <= ds.value.NumberOfImages() - 2) then None
    else Some(PageRequest(i + 1, ds.value.ImageItemAt(i + 1)))
  }

  /** On a valid index, paging stops exactly at the two ends, and every page
      it builds has an item. */
  lemma PagingStopsAtTheEnds(ds: ImageDataSource, i: int)
    requires 0 <= i < ds.NumberOfImages()
    ensures ViewControllerBefore(Some(ds), i).None? <==> i == 0
    ensures ViewControllerAfter(Some(ds), i).None? <==> i == ds.NumberOfImages() - 1
    ensures ViewControllerBefore(Some(ds), i).Some? ==> ViewControllerBefore(Some(ds), i).value.item.Some?
    ensures ViewControllerAfter(Some(ds), i).Some? ==> ViewControllerAfter(Some(ds), i).value.item.Some?
  {
  }

  /** With fewer than two images there is never a next page. */
  lemma NoPagingWithOneImage(ds: ImageDataSource, i: int)
    requires ds.NumberOfImages() <= 1 && i >= 0
    ensures ViewControllerAfter(Some(ds), i).None?
  {
  }

  /** Stepping forward then back (or back then forward) returns to the page
      one started from. */
  lemma PagingRoundTrip(ds: ImageDataSource, i: int)
    requires 0 <= i < ds.NumberOfImages()
    ensures var next := ViewControllerAfter(Some(ds), i);
      next.Some? ==> ViewControllerBefore(Some(ds), next.value.index) == Some(PageRequest(i, ds.ImageItemAt(i)))
    ensures var prev := ViewControllerBefore(Some(ds), i);
      prev.Some? ==> ViewControllerAfter(Some(ds), prev.value.index) == Some(PageRequest(i, ds.ImageItemAt(i)))
  {
  }

  /** The page indicator's count: the data source's, or 0 once it is gone. */
  function NumberOfPages(ds: Option<ImageDataSource>): (n: nat)
    ensures ds.None? ==> n == 0
    ensures ds.Some? ==> n == |ds.value.items|
  {
    match ds
    case None => 0
    case Some(d) => d.NumberOfImages()
  }

  // ---------------------------------------------------------------------------
  // Options

  /** The right navigation bar button. */
  datatype NavItem = NoNavItem | TitleNavItem(title: string) | IconNavItem(icon: Bitmap)

  /** The left navigation bar button, whose image `.closeIcon` replaces. */
  datatype LeftBarButton = NoLeftButton | LeftButton(image: Option<Bitmap>)

  /** The carousel state that `applyOptions` writes. */
  datatype OptionSlots = OptionSlots(
    hasDeleteButton: bool,
    onDeleteButtonTapped: Option<Callback>,
    indexOffset: int,
    transitionSourceRect: Option<Rect>,
    theme: Option<ImageViewerTheme>,
    imageContentMode: ContentMode,
    leftBarButton: LeftBarButton,
    rightNavItem: NavItem,
    onRightNavBarTapped: Option<Callback>)

  /** The slots of a carousel before any option is applied. */
  function DefaultSlots(mode: ContentMode): OptionSlots {
    OptionSlots(false, None, 0, None, None, mode, NoLeftButton, NoNavItem, None)
  }

  /** One case of the `switch` in `applyOptions`. */
  function ApplyOption(s: OptionSlots, o: ImageViewerOption): OptionSlots {
    match o
    case DeleteButton(onTap) => s.(hasDeleteButton := true, onDeleteButtonTapped := onTap)
    case IndexOffset(k) => s.(indexOffset := k)
    case TransitionSourceRect(r) => s.(transitionSourceRect := Some(r))
    case Theme(t) => s.(theme := Some(t))
    case ContentModeOption(m) => s.(imageContentMode := m)
    case CloseIcon(icon) =>
      s.(leftBarButton := if s.leftBarButton.LeftButton? then LeftButton(Some(icon)) else NoLeftButton)
    case RightNavItemTitle(title, onTap) => s.(rightNavItem := TitleNavItem(title), onRightNavBarTapped := onTap)
    case RightNavItemIcon(icon, onTap) => s.(rightNavItem := IconNavItem(icon), onRightNavBarTapped := onTap)
  }

  /** `options.forEach { ... }`: a left fold of ApplyOption over the list. */
  function FoldOptions(s: OptionSlots, opts: seq<ImageViewerOption>): OptionSlots
    decreases |opts|
  {
    if opts == [] then s
    else ApplyOption(FoldOptions(s, opts[..|opts| - 1]), opts[|opts| - 1])
  }

  /** The slots where two options can compete; the last one to write wins. */
  datatype Slot = DeleteSlot | IndexOffsetSlot | SourceRectSlot | ThemeSlot | ContentModeSlot | RightNavSlot

  datatype SlotValue =
    | DeleteValue(present: bool, onDelete: Option<Callback>)
    | OffsetValue(offset: int)
    | RectValue(rect: Option<Rect>)
    | ThemeValue(theme: Option<ImageViewerTheme>)
    | ModeValue(mode: ContentMode)
    | NavValue(item: NavItem, onTap: Option<Callback>)

  function SlotValueOf(s: OptionSlots, k: Slot): SlotValue {
    match k
    case DeleteSlot => DeleteValue(s.hasDeleteButton, s.onDeleteButtonTapped)
    case IndexOffsetSlot => OffsetValue(s.indexOffset)
    case SourceRectSlot => RectValue(s.transitionSourceRect)
    case ThemeSlot => ThemeValue(s.theme)
    case ContentModeSlot => ModeValue(s.imageContentMode)
    case RightNavSlot => NavValue(s.rightNavItem, s.onRightNavBarTapped)
  }

  /** What an option writes into a slot, independently of the state it is
      applied to; None when it does not target the slot. */
  function Written(o: ImageViewerOption, k: Slot): Option<SlotValue> {
    match o
    case DeleteButton(onTap) => if k == DeleteSlot then Some(DeleteValue(true, onTap)) else None
    case IndexOffset(n) => if k == IndexOffsetSlot then Some(OffsetValue(n)) else None
    case TransitionSourceRect(r) => if k == SourceRectSlot then Some(RectValue(Some(r))) else None
    case Theme(t) => if k == ThemeSlot then Some(ThemeValue(Some(t))) else None
    case ContentModeOption(m) => if k == ContentModeSlot then Some(ModeValue(m)) else None
    case CloseIcon(_) => None
    case RightNavItemTitle(title, onTap) => if k == RightNavSlot then Some(NavValue(TitleNavItem(title), onTap)) else None
    case RightNavItemIcon(icon, onTap) => if k == RightNavSlot then Some(NavValue(IconNavItem(icon), onTap)) else None
  }

  /** The position of the last option in `opts` that writes slot `k`. */
  function LastWriter(opts: seq<ImageViewerOption>, k: Slot): (r: Option<nat>)
    ensures r.Some? ==> r.value < |opts| && Written(opts[r.value], k).Some?
    ensures r.Some? ==> forall j :: r.value < j < |opts| ==> Written(opts[j], k).None?
    ensures r.None? ==> forall j :: 0 <= j < |opts| ==> Written(opts[j], k).None?
    decreases |opts|
  {
    if opts == [] then None
    else if Written(opts[|opts| - 1], k).Some? then Some(|opts| - 1)
    else
      var prefix := opts[..|opts| - 1];
      var r := LastWriter(prefix, k);
      assert forall j :: 0 <= j < |prefix| ==> prefix[j] == opts[j];
      r
  }

  /** After the fold, each slot holds what its last writer wrote, or its old
      value when no option targets it. */
  lemma {:induction false} SlotAfterFold(s: OptionSlots, opts: seq<ImageViewerOption>, k: Slot)
    ensures SlotValueOf(FoldOptions(s, opts), k) ==
      match LastWriter(opts, k)
      case Some(i) => Written(opts[i], k).value
      case None => SlotValueOf(s, k)
    decreases |opts|
  {
    if opts != [] {
      var prefix := opts[..|opts| - 1];
      var last := opts[|opts| - 1];
      SlotAfterFold(s, prefix, k);
      SlotAfterApply(FoldOptions(s, prefix), last, k);
      if Written(last, k).None? {
        assert LastWriter(opts, k) == LastWriter(prefix, k);
        assert forall j :: 0 <= j < |prefix| ==> prefix[j] == opts[j];
      }
    }
  }

  /** One option: a slot it writes takes the written value, any other slot
      keeps its value. */
  lemma {:induction false} SlotAfterApply(s: OptionSlots, o: ImageViewerOption, k: Slot)
    ensures SlotValueOf(ApplyOption(s, o), k) == if Written(o, k).Some? then Written(o, k).value else SlotValueOf(s, k)
  {
  }

  /** The last matching option wins: for `.indexOffset`, `.transitionSourceRect`,
      the right navigation item and every other competing slot. */
  lemma {:induction false} LastOptionWins(s: OptionSlots, opts: seq<ImageViewerOption>, k: Slot, i: nat)
    requires i < |opts| && Written(opts[i], k).Some?
    requires forall j :: i < j < |opts| ==> Written(opts[j], k).None?
    ensures SlotValueOf(FoldOptions(s, opts), k) == Written(opts[i], k).value
  {
    SlotAfterFold(s, opts, k);
  }

  /** Options that do not target a slot leave it as it was. */
  lemma {:induction false} UntargetedSlotUnchanged(s: OptionSlots, opts: seq<ImageViewerOption>, k: Slot)
    requires forall j :: 0 <= j < |opts| ==> Written(opts[j], k).None?
    ensures SlotValueOf(FoldOptions(s, opts), k) == SlotValueOf(s, k)
  {
    SlotAfterFold(s, opts, k);
  }

  /** `.closeIcon` only retitles a left button that exists; none is ever
      created, so without one the option has no effect. */
  lemma {:induction false} CloseIconNeedsLeftButton(s: OptionSlots, opts: seq<ImageViewerOption>)
    ensures FoldOptions(s, opts).leftBarButton.LeftButton? == s.leftBarButton.LeftButton?
    ensures (forall j :: 0 <= j < |opts| ==> !opts[j].CloseIcon?) ==>
      FoldOptions(s, opts).leftBarButton == s.leftBarButton
    decreases |opts|
  {
    if opts != [] {
      var prefix := opts[..|opts| - 1];
      CloseIconNeedsLeftButton(s, prefix);
      assert forall j :: 0 <= j < |prefix| ==> prefix[j] == opts[j];
    }
  }

  /** The left button after the fold depends only on whether it existed
      and on the options themselves. */
  lemma {:induction false} LeftButtonAfterFold(s: OptionSlots, t: OptionSlots, opts: seq<ImageViewerOption>)
    requires s.leftBarButton.LeftButton? == t.leftBarButton.LeftButton?
    requires (exists j :: 0 <= j < |opts| && opts[j].CloseIcon?) || s.leftBarButton == t.leftBarButton
    ensures FoldOptions(s, opts).leftBarButton == FoldOptions(t, opts).leftBarButton
    decreases |opts|
  {
    if opts != [] {
      var prefix := opts[..|opts| - 1];
      assert forall j :: 0 <= j < |prefix| ==> prefix[j] == opts[j];
      if !opts[|opts| - 1].CloseIcon? {
        LeftButtonAfterFold(s, t, prefix);
      } else {
        CloseIconNeedsLeftButton(s, prefix);
        CloseIconNeedsLeftButton(t, prefix);
      }
    }
  }

  /** Applying the same option list twice is the same as applying it once. */
  lemma {:induction false} FoldIdempotent(s: OptionSlots, opts: seq<ImageViewerOption>)
    ensures FoldOptions(FoldOptions(s, opts), opts) == FoldOptions(s, opts)
  {
    var once := FoldOptions(s, opts);
    var twice := FoldOptions(once, opts);
    forall k: Slot ensures SlotValueOf(twice, k) == SlotValueOf(once, k) {
      SlotAfterFold(s, opts, k);
      SlotAfterFold(once, opts, k);
    }
    assert SlotValueOf(twice, DeleteSlot) == SlotValueOf(once, DeleteSlot);
    assert SlotValueOf(twice, IndexOffsetSlot) == SlotValueOf(once, IndexOffsetSlot);
    assert SlotValueOf(twice, SourceRectSlot) == SlotValueOf(once, SourceRectSlot);
    assert SlotValueOf(twice, ThemeSlot) == SlotValueOf(once, ThemeSlot);
    assert SlotValueOf(twice, ContentModeSlot) == SlotValueOf(once, ContentModeSlot);
    assert SlotValueOf(twice, RightNavSlot) == SlotValueOf(once, RightNavSlot);
    CloseIconNeedsLeftButton(s, opts);
    if !(exists j :: 0 <= j < |opts| && opts[j].CloseIcon?) {
      CloseIconNeedsLeftButton(once, opts);
    } else {
      LeftButtonAfterFold(once, s, opts);
    }
  }

  // ---------------------------------------------------------------------------
  // Deferred work on the origin grid

  /** A block handed to `DispatchQueue.main.async`. A cell is captured when
      the block is made: `None` stands for a row without a loaded cell. */
  datatype Task =
    | SetCellAlpha(cell: Option<int>, alpha: real)
    | ScrollToItem(row: int)
    /** The block a rebinding `setup` queues: reset, then hide. */
    | ResetThenHide

  /** The part of the grid the tasks change. */
  datatype GridEffect = GridEffect(alpha: map<int, real>, scrolls: seq<int>)

  predicate Plain(q: seq<Task>) {
    forall i :: 0 <= i < |q| ==> !q[i].ResetThenHide?
  }

  /** Tasks that only scroll. */
  predicate ScrollsOnly(q: seq<Task>) {
    forall i :: 0 <= i < |q| ==> q[i].ScrollToItem?
  }

  /** The termination measure of the queue: a ResetThenHide block counts for
      the `e` blocks it will queue, plus itself. */
  function Weight(q: seq<Task>, e: nat): nat
    decreases |q|
  {
    if q == [] then 0 else (if q[0].ResetThenHide? then e + 1 else 1) + Weight(q[1..], e)
  }

  lemma {:induction false} WeightAppend(a: seq<Task>, b: seq<Task>, e: nat)
    ensures Weight(a + b, e) == Weight(a, e) + Weight(b, e)
    decreases |a|
  {
    if a == [] {
      assert a + b == b;
    } else {
      assert (a + b)[0] == a[0];
      assert (a + b)[1..] == a[1..] + b;
      WeightAppend(a[1..], b, e);
    }
  }

  lemma {:induction false} PlainWeight(q: seq<Task>, e: nat)
    requires Plain(q)
    ensures Weight(q, e) == |q|
    decreases |q|
  {
    if q != [] {
      PlainWeight(q[1..], e);
    }
  }

  /** One plain block run on the main queue. */
  function Step(t: Task, g: GridEffect): GridEffect {
    match t
    case SetCellAlpha(cell, a) => if cell.Some? then g.(alpha := g.alpha[cell.value := a]) else g
    case ScrollToItem(row) => g.(scrolls := g.scrolls + [row])
    case ResetThenHide => g
  }

  /** Running a queue of plain blocks in order. */
  function RunPlain(q: seq<Task>, g: GridEffect): GridEffect
    decreases |q|
  {
    if q == [] then g else RunPlain(q[1..], Step(q[0], g))
  }

  /** Draining the main queue in FIFO order. A ResetThenHide block queues
      `expansion` (the reset and hide blocks of the carousel) at the back. */
  function Run(q: seq<Task>, expansion: seq<Task>, g: GridEffect): GridEffect
    requires Plain(expansion)
    decreases Weight(q, |expansion|)
  {
    if q == [] then g
    else if q[0].ResetThenHide? then
      WeightAppend(q[1..], expansion, |expansion|);
      PlainWeight(expansion, |expansion|);
      Run(q[1..] + expansion, expansion, g)
    else Run(q[1..], expansion, Step(q[0], g))
  }

  lemma {:induction false} RunAfterPlainPrefix(a: seq<Task>, b: seq<Task>, expansion: seq<Task>, g: GridEffect)
    requires Plain(a) && Plain(expansion)
    ensures Run(a + b, expansion, g) == Run(b, expansion, RunPlain(a, g))
    decreases |a|
  {
    if a == [] {
      assert a + b == b;
    } else {
      assert (a + b)[0] == a[0];
      assert (a + b)[1..] == a[1..] + b;
      assert Plain(a[1..]) by {
        forall i | 0 <= i < |a[1..]| ensures !a[1..][i].ResetThenHide? {
          assert a[1..][i] == a[i + 1];
        }
      }
      RunAfterPlainPrefix(a[1..], b, expansion, Step(a[0], g));
    }
  }

  lemma {:induction false} RunOfPlain(q: seq<Task>, expansion: seq<Task>, g: GridEffect)
    requires Plain(q) && Plain(expansion)
    ensures Run(q, expansion, g) == RunPlain(q, g)
    decreases |q|
  {
    if q != [] {
      RunOfPlain(q[1..], expansion, Step(q[0], g));
    }
  }

  lemma {:induction false} RunPlainAppend(a: seq<Task>, b: seq<Task>, g: GridEffect)
    ensures RunPlain(a + b, g) == RunPlain(b, RunPlain(a, g))
    decreases |a|
  {
    if a == [] {
      assert a + b == b;
    } else {
      assert (a + b)[0] == a[0];
      assert (a + b)[1..] == a[1..] + b;
      RunPlainAppend(a[1..], b, Step(a[0], g));
    }
  }

  lemma {:induction false} PlainAppend(a: seq<Task>, b: seq<Task>)
    requires Plain(a) && Plain(b)
    ensures Plain(a + b)
  {
    forall i | 0 <= i < |a + b| ensures !(a + b)[i].ResetThenHide? {
      if i >= |a| {
        assert (a + b)[i] == b[i - |a|];
      }
    }
  }

  /** The rows a queue of plain blocks scrolls to, in order. */
  function ScrollRows(q: seq<Task>): seq<int>
    decreases |q|
  {
    if q == [] then [] else (if q[0].ScrollToItem? then [q[0].row] else []) + ScrollRows(q[1..])
  }

  /** Running plain blocks adds their scrolls to the log, in order. */
  lemma {:induction false} ScrollLog(q: seq<Task>, g: GridEffect)
    ensures RunPlain(q, g).scrolls == g.scrolls + ScrollRows(q)
    decreases |q|
  {
    if q != [] {
      ScrollLog(q[1..], Step(q[0], g));
    }
  }

  lemma {:induction false} ScrollsOnlyKeepAlpha(q: seq<Task>, g: GridEffect)
    requires ScrollsOnly(q)
    ensures RunPlain(q, g).alpha == g.alpha
    decreases |q|
  {
    if q != [] {
      ScrollsOnlyKeepAlpha(q[1..], Step(q[0], g));
    }
  }

  /** What `resetParentScrollViewCellVisibility` queues: alpha 1 for the cell
      of every row, in row order. */
  function ResetTasks(rowCount: nat, loaded: set<int>): seq<Task>
    decreases rowCount
  {
    if rowCount == 0 then []
    else ResetTasks(rowCount - 1, loaded) + [SetCellAlpha(if rowCount - 1 in loaded then Some(rowCount - 1) else None, 1.0)]
  }

  /** The reset blocks: one opacity block per row, for that row's cell. */
  lemma {:induction false} ResetTasksShape(rowCount: nat, loaded: set<int>)
    ensures var q := ResetTasks(rowCount, loaded);
      && |q| == rowCount && Plain(q) && ScrollRows(q) == []
      && forall r :: 0 <= r < rowCount ==> q[r] == SetCellAlpha(if r in loaded then Some(r) else None, 1.0)
  {
    ResetTasksRows(rowCount, loaded);
    NoScrollRows(ResetTasks(rowCount, loaded));
  }

  lemma {:induction false} ResetTasksRows(rowCount: nat, loaded: set<int>)
    ensures var q := ResetTasks(rowCount, loaded);
      && |q| == rowCount
      && forall r :: 0 <= r < rowCount ==> q[r] == SetCellAlpha(if r in loaded then Some(r) else None, 1.0)
    decreases rowCount
  {
    if rowCount > 0 {
      ResetTasksRows(rowCount - 1, loaded);
    }
  }

  lemma {:induction false} NoScrollRows(q: seq<Task>)
    requires forall i :: 0 <= i < |q| ==> q[i].SetCellAlpha?
    ensures ScrollRows(q) == []
    decreases |q|
  {
    if q != [] {
      NoScrollRows(q[1..]);
    }
  }

  /** What `hideCurrentParentScrollViewCell` queues: alpha 0 for the cell of
      the active row. */
  function HideTasks(row: int, loaded: set<int>): seq<Task> {
    [SetCellAlpha(if row in loaded then Some(row) else None, 0.0)]
  }

  /** The hide block: a single opacity block and no scroll. */
  lemma {:induction false} HideTasksShape(row: int, loaded: set<int>)
    ensures var q := HideTasks(row, loaded);
      |q| == 1 && Plain(q) && ScrollRows(q) == []
  {
    NoScrollRows(HideTasks(row, loaded));
  }

  /** What `scrollParentScrollViewToCurrentItem` queues: a scroll to the
      active row when its cell is loaded and either cut off or the caller
      does not ask to scroll only if necessary. */
  function ScrollTasks(row: int, loaded: set<int>, fullyVisible: set<int>, onlyScrollIfNecessary: bool): seq<Task> {
    if row in loaded && (row !in fullyVisible || !onlyScrollIfNecessary) then [ScrollToItem(row)] else []
  }

  /** The scroll blocks: only scrolls, and a scroll to the row exactly when
      its cell is loaded and either cut off or the caller does not ask to
      scroll only if necessary. */
  lemma {:induction false} ScrollTasksShape(row: int, loaded: set<int>, fullyVisible: set<int>, onlyScrollIfNecessary: bool)
    ensures var q := ScrollTasks(row, loaded, fullyVisible, onlyScrollIfNecessary);
      && ScrollsOnly(q) && Plain(q)
      && ScrollRows(q) == (if row in loaded && (row !in fullyVisible || !onlyScrollIfNecessary) then [row] else [])
  {
    var q := ScrollTasks(row, loaded, fullyVisible, onlyScrollIfNecessary);
    if q != [] {
      assert q[1..] == [];
    }
  }

  /** Running the reset blocks shows every loaded cell of a row below `n`. */
  lemma {:induction false} ResetShowsLoadedCells(n: nat, loaded: set<int>, g: GridEffect)
    ensures var after := RunPlain(ResetTasks(n, loaded), g).alpha;
      forall r :: r in loaded && 0 <= r < n ==> r in after && after[r] == 1.0
    ensures forall r :: r in g.alpha && !(r in loaded && 0 <= r < n) ==>
      r in RunPlain(ResetTasks(n, loaded), g).alpha && RunPlain(ResetTasks(n, loaded), g).alpha[r] == g.alpha[r]
    decreases n
  {
    if n > 0 {
      var t := SetCellAlpha(if n - 1 in loaded then Some(n - 1) else None, 1.0);
      assert ResetTasks(n, loaded) == ResetTasks(n - 1, loaded) + [t];
      RunPlainAppend(ResetTasks(n - 1, loaded), [t], g);
      ResetShowsLoadedCells(n - 1, loaded, g);
    }
  }

  /** The blocks the deferred rebinding block queues: the reset of every
      row, then the hide of the active row's cell; none of them rebinds. */
  function RebindTasks(rowCount: nat, loaded: set<int>, row: int): (q: seq<Task>)
    ensures Plain(q)
  {
    ResetTasksShape(rowCount, loaded);
    HideTasksShape(row, loaded);
    PlainAppend(ResetTasks(rowCount, loaded), HideTasks(row, loaded));
    ResetTasks(rowCount, loaded) + HideTasks(row, loaded)
  }

  /** Only the active row's loaded cell is hidden; every other loaded cell
      is shown. */
  ghost predicate OnlyActiveHidden(alpha: map<int, real>, loaded: set<int>, row: int) {
    forall r :: r in loaded ==> r in alpha && alpha[r] == (if r == row then 0.0 else 1.0)
  }

  /** Draining after a page change: whatever plain blocks came before, the
      reset, scroll and hide blocks leave only the active row hidden, and the
      scroll log gains exactly the queued scroll. */
  lemma {:induction false} DrainAfterPageChange(
    prefix: seq<Task>, rowCount: nat, loaded: set<int>, row: int, scroll: seq<Task>,
    expansion: seq<Task>, g: GridEffect)
    requires Plain(prefix) && Plain(expansion) && ScrollsOnly(scroll)
    requires forall r :: r in loaded ==> 0 <= r < rowCount
    ensures var q := prefix + ResetTasks(rowCount, loaded) + scroll + HideTasks(row, loaded);
      var after := Run(q, expansion, g);
      && OnlyActiveHidden(after.alpha, loaded, row)
      && after.scrolls == RunPlain(prefix, g).scrolls + ScrollRows(scroll)
  {
    var reset := ResetTasks(rowCount, loaded);
    var hiding := HideTasks(row, loaded);
    ResetTasksShape(rowCount, loaded);
    HideTasksShape(row, loaded);
    assert Plain(scroll);
    var q := prefix + reset + scroll + hiding;
    var mid := reset + scroll + hiding;
    assert q == prefix + mid;
    PlainAppend(reset, scroll);
    PlainAppend(reset + scroll, hiding);
    RunAfterPlainPrefix(prefix, mid, expansion, g);
    RunOfPlain(mid, expansion, RunPlain(prefix, g));
    var g0 := RunPlain(prefix, g);
    RunPlainAppend(reset + scroll, hiding, g0);
    RunPlainAppend(reset, scroll, g0);
    var g1 := RunPlain(reset, g0);
    ResetShowsLoadedCells(rowCount, loaded, g0);
    var g2 := RunPlain(scroll, g1);
    ScrollsOnlyKeepAlpha(scroll, g1);
    assert RunPlain(hiding, g2) == Step(hiding[0], g2);
    ScrollLog(reset, g0);
    ScrollLog(scroll, g1);
  }

  /** Draining after a rebinding `setup`: the deferred reset-then-hide block
      leaves only the active row hidden. */
  lemma {:induction false} DrainAfterRebind(prefix: seq<Task>, rowCount: nat, loaded: set<int>, row: int, g: GridEffect)
    requires Plain(prefix)
    requires forall r :: r in loaded ==> 0 <= r < rowCount
    ensures OnlyActiveHidden(Run(prefix + [ResetThenHide], RebindTasks(rowCount, loaded, row), g).alpha, loaded, row)
  {
    var reset := ResetTasks(rowCount, loaded);
    var hiding := HideTasks(row, loaded);
    var expansion := RebindTasks(rowCount, loaded, row);
    assert expansion == reset + hiding;
    RunAfterPlainPrefix(prefix, [ResetThenHide], expansion, g);
    var g0 := RunPlain(prefix, g);
    WeightAppend([ResetThenHide][1..], expansion, |expansion|);
    PlainWeight(expansion, |expansion|);
    assert Run([ResetThenHide], expansion, g0) == Run([ResetThenHide][1..] + expansion, expansion, g0);
    assert [ResetThenHide][1..] + expansion == expansion;
    RunOfPlain(expansion, expansion, g0);
    RunPlainAppend(reset, hiding, g0);
    ResetShowsLoadedCells(rowCount, loaded, g0);
  }

  // ---------------------------------------------------------------------------
  // The carousel

  /** A view controller in a presentation chain. */
  datatype Controller = CarouselController(carousel: ImageCarouselViewController) | OtherController(id: nat)

  /** ImageCarouselViewController. */
  class ImageCarouselViewController {
    /** `initialSourceView` and its superviews, nearest first. */
    var sourcePath: seq<View>
    /** The collection view that `parentView(of: UICollectionView.self)` finds
        from the thumbnail, when it finds one. */
    const grid: CollectionView
    const chrome: Chrome
    /** `viewControllers?.first as? ImageViewerController`. */
    var page: ImageViewerController?
    var imageDatasource: Option<ImageDataSource>
    var initialIndex: int
    var currentIndex: int
    var options: seq<ImageViewerOption>

    var hasDeleteButton: bool
    var onDeleteButtonTapped: Option<Callback>
    var indexOffset: int
    var transitionSourceRect: Option<Rect>
    var theme: Option<ImageViewerTheme>
    var imageContentMode: ContentMode
    var leftBarButton: LeftBarButton
    var rightNavItem: NavItem
    var onRightNavBarTapped: Option<Callback>

    /** The page control. */
    var numberOfPages: nat
    var pageControlHidden: bool
    var currentPage: int

    /** The carousel's own view: its alpha, whether the transition added it
        to the container view, and its bounds. */
    var viewAlpha: real
    var viewInContainer: bool
    const viewBounds: Rect

    /** Blocks queued on the main queue and not yet run. */
    var tasks: seq<Task>

    /** Set when the carousel was presented with a completion block that hides
        the active cell (the tap handler's). */
    var hidesCellOnPresent: bool

    ghost predicate Valid()
      reads this, grid
    {
      grid.Valid()
    }

    constructor (sourcePath: seq<View>, imageDataSource: Option<ImageDataSource>, options: seq<ImageViewerOption>,
                 initialIndex: int, grid: CollectionView, darkStyle: bool, viewBounds: Rect)
      requires grid.Valid()
      ensures Valid() && fresh(chrome) && !chrome.hideControls && chrome.darkStyle == darkStyle
      ensures this.sourcePath == sourcePath && this.grid == grid && this.viewBounds == viewBounds
      ensures imageDatasource == imageDataSource && this.options == options
      ensures this.initialIndex == initialIndex && currentIndex == initialIndex
      ensures Slots() == DefaultSlots(FoldOptions(DefaultSlots(ScaleAspectFill), options).imageContentMode)
      ensures page == null && tasks == [] && !hidesCellOnPresent
      ensures viewAlpha == 1.0 && !viewInContainer
    {
      this.sourcePath := sourcePath;
      this.grid := grid;
      this.viewBounds := viewBounds;
      this.initialIndex := initialIndex;
      this.currentIndex := initialIndex;
      this.options := options;
      this.imageDatasource := imageDataSource;
      var mode := ScaleAspectFill;
      var i := 0;
      while i < |options|
        invariant 0 <= i <= |options|
        invariant mode == FoldOptions(DefaultSlots(ScaleAspectFill), options[..i]).imageContentMode
      {
        assert options[..i + 1][..i] == options[..i];
        match options[i] {
          case ContentModeOption(m) =>
            mode := m;
          case _ =>
        }
        i := i + 1;
      }
      assert options[..|options|] == options;
      imageContentMode := mode;
      hasDeleteButton, onDeleteButtonTapped := false, None;
      indexOffset, transitionSourceRect, theme := 0, None, None;
      leftBarButton, rightNavItem, onRightNavBarTapped := NoLeftButton, NoNavItem, None;
      chrome := new Chrome(darkStyle);
      page := null;
      numberOfPages, pageControlHidden, currentPage := 0, false, 0;
      viewAlpha, viewInContainer := 1.0, false;
      tasks := [];
      hidesCellOnPresent := false;
    }

    function Slots(): OptionSlots
      reads this`hasDeleteButton, this`onDeleteButtonTapped, this`indexOffset, this`transitionSourceRect,
            this`theme, this`imageContentMode, this`leftBarButton, this`rightNavItem, this`onRightNavBarTapped
    {
      OptionSlots(hasDeleteButton, onDeleteButtonTapped, indexOffset, transitionSourceRect, theme,
                  imageContentMode, leftBarButton, rightNavItem, onRightNavBarTapped)
    }

    /** Whether the thumbnail has a collection view among its ancestors. */
    predicate HasGrid()
      reads this`sourcePath
    {
      ParentView(sourcePath, CollectionViewKind).Some?
    }

    /** `indexOffset + currentIndex`: the origin grid row of the shown image. */
    function ActiveRow(): int
      reads this`indexOffset, this`currentIndex
    {
      indexOffset + currentIndex
    }

    /** The blocks a ResetThenHide block queues when it runs. */
    function Expansion(): (q: seq<Task>)
      reads this`sourcePath, this`indexOffset, this`currentIndex, grid`rowCount, grid`loaded
      ensures Plain(q)
    {
      if HasGrid() then RebindTasks(grid.rowCount, grid.loaded, ActiveRow()) else []
    }

    /** `sourceView`: the thumbnail, but only while the shown page is the one
        the carousel opened on. */
    function SourceView(): (v: Option<View>)
      reads this`page, this`initialIndex, this`sourcePath
      ensures v.Some? <==> page != null && page.index == initialIndex && |sourcePath| > 0
      ensures v.Some? ==> v.value == sourcePath[0]
    {
      if page == null then None
      else if initialIndex == page.index && |sourcePath| > 0 then Some(sourcePath[0])
      else None
    }

    /** `targetView`: the shown page's image view. */
    function TargetView(): (v: ImageView?)
      reads this`page
      ensures v != null <==> page != null
      ensures page != null ==> v == page.imageView
    {
      if page == null then null else page.imageView
    }

    /** `prefersStatusBarHidden`. */
    function PrefersStatusBarHidden(): (hidden: bool)
      reads chrome
      ensures hidden <==> chrome.hideControls
    {
      chrome.PrefersStatusBarHidden()
    }

    /** `applyOptions()`. */
    method ApplyOptions()
      modifies this`hasDeleteButton, this`onDeleteButtonTapped, this`indexOffset, this`transitionSourceRect,
               this`theme, this`imageContentMode, this`leftBarButton, this`rightNavItem, this`onRightNavBarTapped
      ensures Slots() == FoldOptions(old(Slots()), options)
    {
      var i := 0;
      while i < |options|
        invariant 0 <= i <= |options|
        invariant Slots() == FoldOptions(old(Slots()), options[..i])
      {
        assert options[..i + 1][..i] == options[..i];
        match options[i] {
          case DeleteButton(onTap) =>
            hasDeleteButton := true;
            onDeleteButtonTapped := onTap;
          case IndexOffset(k) =>
            indexOffset := k;
          case TransitionSourceRect(r) =>
            transitionSourceRect := Some(r);
          case Theme(t) =>
            theme := Some(t);
          case ContentModeOption(m) =>
            imageContentMode := m;
          case CloseIcon(icon) =>
            if leftBarButton.LeftButton? {
              leftBarButton := LeftButton(Some(icon));
            }
          case RightNavItemTitle(title, onTap) =>
            rightNavItem := TitleNavItem(title);
            onRightNavBarTapped := onTap;
          case RightNavItemIcon(icon, onTap) =>
            rightNavItem := IconNavItem(icon);
            onRightNavBarTapped := onTap;
        }
        i := i + 1;
      }
      assert options[..|options|] == options;
    }

    /** The page-control part of `addToolBar()`. */
    method AddToolBar()
      modifies this`numberOfPages, this`pageControlHidden, this`currentPage
      ensures numberOfPages == NumberOfPages(imageDatasource)
      ensures pageControlHidden <==> numberOfPages == 1
      ensures currentPage == currentIndex
    {
      numberOfPages := NumberOfPages(imageDatasource);
      pageControlHidden := numberOfPages == 1;
      currentPage := currentIndex;
    }

    /** `resetParentScrollViewCellVisibility()`: one block per grid row. */
    method ResetParentScrollViewCellVisibility()
      modifies this`tasks
      ensures tasks == old(tasks) + (if HasGrid() then ResetTasks(grid.rowCount, grid.loaded) else [])
    {
      if !HasGrid() {
        return;
      }
      var numberOfRows := grid.rowCount;
      var rowIndex := 0;
      while rowIndex < numberOfRows
        invariant 0 <= rowIndex <= numberOfRows
        invariant tasks == old(tasks) + ResetTasks(rowIndex, grid.loaded)
      {
        var cell := if rowIndex in grid.loaded then Some(rowIndex) else None;
        assert ResetTasks(rowIndex + 1, grid.loaded) == ResetTasks(rowIndex, grid.loaded) + [SetCellAlpha(cell, 1.0)];
        tasks := tasks + [SetCellAlpha(cell, 1.0)];
        rowIndex := rowIndex + 1;
      }
    }

    /** `hideCurrentParentScrollViewCell()`. */
    method HideCurrentParentScrollViewCell()
      modifies this`tasks
      ensures tasks == old(tasks) + (if HasGrid() then HideTasks(ActiveRow(), grid.loaded) else [])
    {
      if !HasGrid() {
        return;
      }
      var rowIndex := indexOffset + currentIndex;
      var cell := if rowIndex in grid.loaded then Some(rowIndex) else None;
      tasks := tasks + [SetCellAlpha(cell, 0.0)];
    }

    /** `scrollParentScrollViewToCurrentItem(onlyScrollIfNecessary:)`. */
    method ScrollParentScrollViewToCurrentItem(onlyScrollIfNecessary: bool)
      modifies this`tasks
      ensures tasks == old(tasks) +
        (if HasGrid() then ScrollTasks(ActiveRow(), grid.loaded, grid.fullyVisible, onlyScrollIfNecessary) else [])
    {
      var rowIndex := indexOffset + currentIndex;
      if !HasGrid() || rowIndex !in grid.loaded {
        return;
      }
      var completelyVisible := rowIndex in grid.fullyVisible;
      var shouldScroll := !completelyVisible;
      if shouldScroll || !onlyScrollIfNecessary {
        tasks := tasks + [ScrollToItem(rowIndex)];
      }
    }

    /** `pageViewController(_:didFinishAnimating:previousViewControllers:transitionCompleted:)`. */
    method DidFinishAnimating(completed: bool)
      modifies this`tasks, this`currentIndex, this`currentPage
      ensures !completed || page == null || !HasGrid() ==>
        tasks == old(tasks) && currentIndex == old(currentIndex) && currentPage == old(currentPage)
      ensures completed && page != null && HasGrid() ==>
        && currentIndex == page.index && currentPage == page.index
        && tasks == old(tasks) + ResetTasks(grid.rowCount, grid.loaded)
                   + ScrollTasks(indexOffset + page.index, grid.loaded, grid.fullyVisible, true)
                   + HideTasks(indexOffset + page.index, grid.loaded)
    {
      if !completed || page == null || !HasGrid() {
        return;
      }
      TurnToPage(page.index);
    }

    /** A completed page turn to the page at `index`. */
    method TurnToPage(index: int)
      requires HasGrid()
      modifies this`tasks, this`currentIndex, this`currentPage
      ensures currentIndex == index && currentPage == index
      ensures tasks == old(tasks) + ResetTasks(grid.rowCount, grid.loaded)
                   + ScrollTasks(indexOffset + index, grid.loaded, grid.fullyVisible, true)
                   + HideTasks(indexOffset + index, grid.loaded)
    {
      ResetParentScrollViewCellVisibility();
      currentIndex := index;
      currentPage := currentIndex;
      QueueScrollAndHide();
    }

    /** The scroll to the current item, then the hide of its cell. */
    method QueueScrollAndHide()
      requires HasGrid()
      modifies this`tasks
      ensures tasks == old(tasks) + ScrollTasks(ActiveRow(), grid.loaded, grid.fullyVisible, true)
                       + HideTasks(ActiveRow(), grid.loaded)
    {
      ScrollParentScrollViewToCurrentItem(true);
      HideCurrentParentScrollViewCell();
    }

    /** The main run loop: runs every queued block, including the blocks
        queued while draining, in FIFO order. */
    method Drain()
      requires Valid()
      modifies this`tasks, grid`alpha, grid`scrolls
      ensures Valid() && tasks == []
      ensures GridEffect(grid.alpha, grid.scrolls) ==
        Run(old(tasks), Expansion(), old(GridEffect(grid.alpha, grid.scrolls)))
    {
      ghost var expansion := Expansion();
      while tasks != []
        invariant Valid() && expansion == Expansion()
        invariant Run(tasks, expansion, GridEffect(grid.alpha, grid.scrolls)) ==
          Run(old(tasks), expansion, old(GridEffect(grid.alpha, grid.scrolls)))
        decreases Weight(tasks, |expansion|)
      {
        ghost var q, g := tasks, GridEffect(grid.alpha, grid.scrolls);
        var t := tasks[0];
        tasks := tasks[1..];
        RunBlock(t);
        if t.ResetThenHide? {
          WeightAppend(q[1..], expansion, |expansion|);
          PlainWeight(expansion, |expansion|);
          assert Run(q, expansion, g) == Run(tasks, expansion, g);
        } else {
          assert tasks == q[1..];
        }
      }
    }

    /** One block taken off the main queue and run. */
    method RunBlock(t: Task)
      requires Valid()
      modifies this`tasks, grid`alpha, grid`scrolls
      ensures Valid()
      ensures tasks == old(tasks) + (if t.ResetThenHide? then Expansion() else [])
      ensures GridEffect(grid.alpha, grid.scrolls) == Step(t, old(GridEffect(grid.alpha, grid.scrolls)))
    {
      match t
      case SetCellAlpha(cell, a) =>
        if cell.Some? {
          grid.alpha := grid.alpha[cell.value := a];
        }
      case ScrollToItem(row) =>
        grid.scrolls := grid.scrolls + [row];
      case ResetThenHide =>
        ResetParentScrollViewCellVisibility();
        HideCurrentParentScrollViewCell();
    }

    /** The main run loop after a rebinding `setup` queued its block behind
        plain ones: only the active row's cell ends up hidden. */
    method DrainAfterRebinding()
      requires Valid() && |tasks| > 0 && tasks[|tasks| - 1] == ResetThenHide && Plain(tasks[..|tasks| - 1])
      modifies this`tasks, grid`alpha, grid`scrolls
      ensures Valid() && tasks == []
      ensures HasGrid() ==> OnlyActiveHidden(grid.alpha, grid.loaded, ActiveRow())
    {
      ghost var prefix := tasks[..|tasks| - 1];
      ghost var g := GridEffect(grid.alpha, grid.scrolls);
      ghost var n, loaded, row := grid.rowCount, grid.loaded, ActiveRow();
      assert tasks == prefix + [ResetThenHide];
      Drain();
      if HasGrid() {
        DrainAfterRebind(prefix, n, loaded, row, g);
      }
    }

    /** UIKit showing a page (`setViewControllers`, or a page turn): the page
        becomes `viewControllers.first` and reaches the chrome through its
        parent. */
    method ShowPage(p: ImageViewerController)
      modifies this`page, p`parent
      ensures page == p && p.parent == chrome
    {
      page := p;
      p.parent := chrome;
    }

    /** A page turn followed by the main run loop: once every queued block has
        run, only the cell of the new active row is hidden. */
    method FinishPageTurnAndDrain(completed: bool)
      requires Valid() && Plain(tasks)
      modifies this`tasks, this`currentIndex, this`currentPage, grid`alpha, grid`scrolls
      ensures Valid() && tasks == []
      ensures completed && page != null && HasGrid() ==>
        currentIndex == page.index && OnlyActiveHidden(grid.alpha, grid.loaded, ActiveRow())
    {
      ghost var prefix := tasks;
      DidFinishAnimating(completed);
      if completed && page != null && HasGrid() {
        assert indexOffset + page.index == ActiveRow();
        DrainPageTurnQueue(prefix);
      } else {
        Drain();
      }
    }

    /** The drain of the queue a completed page turn leaves behind. */
    method DrainPageTurnQueue(ghost prefix: seq<Task>)
      requires Valid() && Plain(prefix) && HasGrid()
      requires tasks == prefix + ResetTasks(grid.rowCount, grid.loaded)
                 + ScrollTasks(ActiveRow(), grid.loaded, grid.fullyVisible, true)
                 + HideTasks(ActiveRow(), grid.loaded)
      modifies this`tasks, grid`alpha, grid`scrolls
      ensures Valid() && tasks == [] && OnlyActiveHidden(grid.alpha, grid.loaded, ActiveRow())
    {
      ghost var n, loaded, row := grid.rowCount, grid.loaded, ActiveRow();
      ghost var scroll := ScrollTasks(row, loaded, grid.fullyVisible, true);
      ghost var expansion := Expansion();
      ghost var g := GridEffect(grid.alpha, grid.scrolls);
      DrainAfterPageChange(prefix, n, loaded, row, scroll, expansion, g);
      ghost var after := Run(tasks, expansion, g);
      assert OnlyActiveHidden(after.alpha, loaded, row);
      Drain();
      assert grid.alpha == after.alpha;
    }
  }
}
