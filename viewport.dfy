/** The integer geometry of the controller's handlers
    (`src/image_handler/controller.rs`): centring an image in the window
    and keeping a dragged image inside the window's border. */
module Viewport {
  import opened Arith

  /** A width and a height in pixels, as GTK reports them. */
  datatype Size = Size(width: int, height: int)

  /** A position in the window's or the layout's coordinates. */
  datatype Point = Point(x: int, y: int)

  /** The offset that centres content of size `img` in a window of size
      `win` on one axis: `xwc - xic` with both halves truncated. */
  function Centre(win: int, img: int): (r: int)
    // the margins before and after the content differ by at most a pixel
    ensures win >= 0 && img >= 0 ==> -1 <= win - img - 2 * r <= 1
    // content that fits lies wholly inside the window
    ensures 0 <= img <= win ==> 0 <= r && r + img <= win
    // content that overflows covers the whole window
    ensures 0 <= win <= img ==> -(img - win) <= r <= 0
  {
    Half(win) - Half(img)
  }

  /** Both axes centred. */
  function CentreIn(win: Size, img: Size): (r: Point)
    // on each axis the two margins differ by at most one pixel
    ensures win.width >= 0 && img.width >= 0 ==> -1 <= win.width - img.width - 2 * r.x <= 1
    ensures win.height >= 0 && img.height >= 0 ==> -1 <= win.height - img.height - 2 * r.y <= 1
  {
    Point(Centre(win.width, img.width), Centre(win.height, img.height))
  }

  /** The motion handler's "keep image inside window border" rule for one
      axis: `shift` is the proposed offset, `img` the image's extent and
      `win` the window's. */
  function ClampAxis(shift: int, img: int, win: int): (r: int)
    // an image at least as large as the window still covers the window
    ensures win <= img ==> -(img - win) <= r <= 0
    // an offset that already keeps the window covered is taken as it is
    ensures win <= img && -(img - win) <= shift <= 0 ==> r == shift
    // on an axis where the image fits, it is snapped to one window edge
    ensures img < win ==> (r == 0 || r == win - img) && 0 <= r && r + img <= win
  {
    if -(img - win) <= shift && shift <= 0 then shift
    else if shift > 0 then 0
    else -(img - win)
  }

  /** The clamped offset is the allowed offset nearest to the proposed one. */
  lemma ClampNearest(shift: int, img: int, win: int, z: int)
    requires win <= img && -(img - win) <= z <= 0
    ensures Abs(ClampAxis(shift, img, win) - shift) <= Abs(z - shift)
  {
  }

  /** On an axis on which the image overflows, a larger proposed offset
      never gives a smaller clamped one. */
  lemma ClampMonotone(s: int, t: int, img: int, win: int)
    requires win <= img && s <= t
    ensures ClampAxis(s, img, win) <= ClampAxis(t, img, win)
  {
  }

  /** On an axis on which the image overflows, the centred offset is a
      fixed point of the clamp. */
  lemma ClampKeepsCentre(win: int, img: int)
    requires 0 <= win <= img
    ensures ClampAxis(Centre(win, img), img, win) == Centre(win, img)
  {
  }

  /** On an axis on which the image fits, the clamp does not keep the order
      of offsets: a 300-pixel image in a 400-pixel window goes to the far
      edge for offset 0 and to the near edge for offset 1. */
  lemma ClampReversesWhereFits()
    ensures ClampAxis(0, 300, 400) == 100 && ClampAxis(1, 300, 400) == 0
  {
  }

  /** Both axes clamped. */
  function ClampPoint(shift: Point, img: Size, win: Size): (r: Point)
    // an axis on which the image overflows keeps the window covered
    ensures win.width <= img.width ==> r.x <= 0 && win.width <= r.x + img.width
    ensures win.height <= img.height ==> r.y <= 0 && win.height <= r.y + img.height
    // an axis on which the image fits keeps the image wholly visible
    ensures img.width < win.width ==> 0 <= r.x && r.x + img.width <= win.width
    ensures img.height < win.height ==> 0 <= r.y && r.y + img.height <= win.height
    // a shift that already covers the window on both axes is kept
    ensures (win.width <= img.width && -(img.width - win.width) <= shift.x <= 0 &&
             win.height <= img.height && -(img.height - win.height) <= shift.y <= 0) ==> r == shift
  {
    Point(ClampAxis(shift.x, img.width, win.width), ClampAxis(shift.y, img.height, win.height))
  }

  /** `layout_xy + (event - click_pos)` on both axes. */
  function DragShift(base: Point, click: Point, pointer: Point): (r: Point)
  {
    Point(base.x + (pointer.x - click.x), base.y + (pointer.y - click.y))
  }

  /** A drag taken in two legs, the second starting where the pointer and
      the unclamped offset of the first ended, lands where one drag from the
      original press would; a pointer back at the press gives the base. */
  lemma DragShiftComposes(base: Point, click: Point, middle: Point, pointer: Point)
    ensures DragShift(DragShift(base, click, middle), middle, pointer) == DragShift(base, click, pointer)
    ensures DragShift(base, click, click) == base
  {
  }

  /** The image is wider or taller than the window: dragging is enabled. */
  predicate Overflows(img: Size, win: Size)
    // an image that does not overflow lies wholly in the window once centred
    ensures !Overflows(img, win) && img.width >= 0 && img.height >= 0 ==>
              0 <= CentreIn(win, img).x && CentreIn(win, img).x + img.width <= win.width &&
              0 <= CentreIn(win, img).y && CentreIn(win, img).y + img.height <= win.height
  {
    win.width < img.width || win.height < img.height
  }
}
