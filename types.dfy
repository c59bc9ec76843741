/** Value types shared by the whole viewer: geometry, the opaque UIKit values the
    viewer only passes around (images, closures), the image items a data source
    serves, the theme and the option list given to the carousel. */
module Types {

  datatype Option<+T> = None | Some(value: T) {
    function GetOr(default: T): T {
      match this
      case Some(v) => v
      case None => default
    }
  }

  /** A CGPoint; coordinates are exact reals (no CGFloat rounding). */
  datatype Point = Point(x: real, y: real)

  /** A CGSize. */
  datatype Size = Size(width: real, height: real)

  /** A CGRect given by its origin and its size. */
  datatype Rect = Rect(origin: Point, size: Size)

  function Abs(x: real): (r: real)
    ensures r >= 0.0 && (r == x || r == -x)
  {
    if x < 0.0 then -x else x
  }

  function Max(a: real, b: real): (r: real)
    ensures r >= a && r >= b && (r == a || r == b)
  {
    if a >= b then a else b
  }

  function Min(a: real, b: real): (r: real)
    ensures r <= a && r <= b && (r == a || r == b)
  {
    if a <= b then a else b
  }

  /** A UIImage, known only by its identity. */
  datatype Bitmap = Bitmap(id: nat)

  /** A closure handed in through an option, known only by its identity. */
  datatype Callback = Callback(id: nat)

  /** UIColor values the viewer assigns. */
  datatype Color = Black | White

  /** ImageItem: a full image and its thumbnail. The `url` case that exists only
      when SDWebImage can be imported is not part of this model. */
  datatype ImageItem = Image(full: Bitmap, thumbnail: Bitmap)

  datatype ImageViewerTheme = Light | Dark {
    /** The tint colour of a theme: black on light, white on dark. */
    function TintColor(): Color {
      match this
      case Light => Black
      case Dark => White
    }
  }

  /** UIView.ContentMode. */
  datatype ContentMode =
    | ScaleToFill | ScaleAspectFit | ScaleAspectFill | Redraw | Center
    | Top | Bottom | Left | Right | TopLeft | TopRight | BottomLeft | BottomRight

  /** ImageViewerOption: the configuration list given to the carousel. */
  datatype ImageViewerOption =
    | IndexOffset(offset: int)
    | DeleteButton(onDelete: Option<Callback>)
    | TransitionSourceRect(rect: Rect)
    | Theme(theme: ImageViewerTheme)
    | ContentModeOption(mode: ContentMode)
    | CloseIcon(icon: Bitmap)
    | RightNavItemTitle(title: string, onTap: Option<Callback>)
    | RightNavItemIcon(icon: Bitmap, onTap: Option<Callback>)

  /** An ImageDataSource, observed through what it answers: `numberOfImages()`
      is the length of `items` and `imageItem(at:)` reads `items`. */
  datatype ImageDataSource = ImageDataSource(items: seq<ImageItem>) {
    function NumberOfImages(): nat {
      |items|
    }

    /** `imageItem(at:)`; an index the source has no item for gives None. */
    function ImageItemAt(i: int): (r: Option<ImageItem>)
      ensures r.Some? <==> 0 <= i < |items|
      ensures r.Some? ==> r.value == items[i]
    {
      if 0 <= i < |items| then Some(items[i]) else None
    }
  }
}
