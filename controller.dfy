/** The viewer's state machine (`src/image_handler/controller.rs`): the
    state the GTK closures share, and one method per handler.  Sizes that
    GTK computes (a decoded image's natural size, the rescaled size of a
    zoom, the window's allocated size, the pointer position) are inputs. */
module Controllers {
  import opened Paths
  import opened ImageSets
  import opened Viewport

  /** Scale is counted in tenths: 1.0, the step 0.10 and the ceiling 4.0. */
  const InitialScale: int := 10
  const ScaleStep: int := 1
  const MaxScale: int := 40

  /** Zoom-out is refused once a rescaled side is at most this many pixels. */
  const MinDimension: int := 20

  /** The arrow key pressed: left shows the previous image, right the next. */
  datatype Direction = Backward | Forward

  /** A snapshot of the shared cells, so that contracts can say which of
      them a handler changes and that no other changes. */
  datatype ViewState = ViewState(
    scale: int, step: int, wh: Size, clickPos: Point, layoutXY: Point,
    drag: bool, childPos: Point, image: Option<Size>)

  /** A rescaled size that zoom-out refuses. */
  predicate TooSmall(dest: Size)
  {
    dest.height <= MinDimension || dest.width <= MinDimension
  }

  /** Every size at least as large as an accepted one is accepted too, so
      the floor refuses exactly the sizes below some threshold per side. */
  lemma TooSmallUpwardClosed(a: Size, b: Size)
    requires !TooSmall(a) && a.width <= b.width && a.height <= b.height
    ensures !TooSmall(b)
  {
  }

  class Controller {
    var imageSet: ImageSet
    /** `curr_scale`, in tenths. */
    var scale: int
    /** `scale_factor`, in tenths. */
    var step: int
    /** `window_width_height`: the last window size the handlers saw. */
    var wh: Size
    /** Pointer position at the last button press. */
    var clickPos: Point
    /** `layout_xy`: the image offset a drag starts from. */
    var layoutXY: Point
    var drag: bool
    /** The image's child position in the layout. */
    var childPos: Point
    /** Size of the pixbuf the image widget shows, `None` without one. */
    var image: Option<Size>

    ghost function View(): ViewState
      reads this
    {
      ViewState(scale, step, wh, clickPos, layoutXY, drag, childPos, image)
    }

    /** The step never changes and every accepted scale is below 4.0. */
    ghost predicate Valid()
      reads this, imageSet
    {
      imageSet.Valid() && step == ScaleStep && scale < MaxScale
    }

    /** `Controller::new`; the image widget's pixbuf, if any, and the
        position the layout gives its child are inputs, since `new` sets
        neither. */
    constructor (imageSet: ImageSet, image: Option<Size>, childPos: Point)
      requires imageSet.Valid()
      ensures Valid() && this.imageSet == imageSet
      ensures View() == ViewState(InitialScale, ScaleStep, Size(0, 0), Point(0, 0),
                                  Point(0, 0), false, childPos, image)
    {
      this.imageSet := imageSet;
      scale, step := InitialScale, ScaleStep;
      wh, clickPos, layoutXY := Size(0, 0), Point(0, 0), Point(0, 0);
      drag := false;
      this.childPos := childPos;
      this.image := image;
    }

    /** `set_from_file`: shows the file; when it decodes (`natural` is its
        size) the window size on record becomes that size. */
    method SetFromFile(natural: Option<Size>)
      requires Valid()
      modifies this
      ensures Valid() && imageSet == old(imageSet)
      ensures natural.None? ==> View() == old(View()).(image := None)
      ensures natural.Some? ==> View() == old(View()).(image := natural, wh := natural.value)
    {
      image := natural;
      if natural.None? { return; }
      wh := natural.value;
    }

    /** The key-press handler's arrow branches: move through the image set
        and, if it yields a path, show that image unscaled at the origin.
        `natural` gives the size GTK decodes for each path. */
    method Navigate(dir: Direction, natural: Path -> Size) returns (shown: Option<Path>)
      requires Valid()
      modifies this, imageSet
      ensures Valid() && imageSet == old(imageSet)
      ensures imageSet.images == old(imageSet.images) && imageSet.len == old(imageSet.len)
      ensures imageSet.len == 0 ==>
                shown == None && imageSet.currImageIndex == old(imageSet.currImageIndex) &&
                View() == old(View())
      ensures imageSet.len > 0 ==>
                imageSet.currImageIndex ==
                  (if dir == Forward then NextIndex(old(imageSet.currImageIndex), imageSet.len)
                   else PrevIndex(old(imageSet.currImageIndex), imageSet.len)) &&
                shown == Some(imageSet.images[imageSet.currImageIndex])
      ensures shown.Some? ==>
                View() == old(View()).(scale := InitialScale, step := ScaleStep,
                                       childPos := Point(0, 0), layoutXY := Point(0, 0),
                                       wh := natural(shown.value),
                                       image := Some(natural(shown.value)))
    {
      if dir == Backward {
        shown := imageSet.Prev();
      } else {
        shown := imageSet.Next();
      }
      if shown.None? { return; }
      var size := natural(shown.value);
      image := Some(size);
      scale := InitialScale;
      step := ScaleStep;
      childPos := Point(0, 0);
      wh := size;
      layoutXY := Point(0, 0);
    }

    /** Scroll up: add the step; at 4.0 or more take it back and stop.  With
        no original pixbuf the raised scale stays and nothing else happens;
        otherwise the rescaled image `dest` is centred in the window `win`. */
    method ZoomIn(win: Size, dest: Option<Size>)
      requires Valid()
      modifies this
      ensures Valid() && imageSet == old(imageSet)
      ensures old(scale) + ScaleStep >= MaxScale ==> View() == old(View())
      ensures old(scale) + ScaleStep < MaxScale && dest.None? ==>
                View() == old(View()).(scale := old(scale) + ScaleStep)
      ensures old(scale) + ScaleStep < MaxScale && dest.Some? ==>
                View() == old(View()).(scale := old(scale) + ScaleStep, image := dest,
                                       childPos := CentreIn(win, dest.value),
                                       layoutXY := CentreIn(win, dest.value))
    {
      scale := scale + step;
      if scale >= MaxScale {
        scale := scale - step;
        return;
      }
      if dest.None? { return; }
      image := dest;
      var c := CentreIn(win, dest.value);
      childPos := c;
      layoutXY := c;
    }

    /** Scroll down: subtract the step.  With no original pixbuf the lowered
        scale stays; a rescaled side of at most 20 pixels takes the step
        back; otherwise the rescaled image is centred as in `ZoomIn`. */
    method ZoomOut(win: Size, dest: Option<Size>)
      requires Valid()
      modifies this
      ensures Valid() && imageSet == old(imageSet)
      ensures dest.None? ==> View() == old(View()).(scale := old(scale) - ScaleStep)
      ensures dest.Some? && TooSmall(dest.value) ==> View() == old(View())
      ensures dest.Some? && !TooSmall(dest.value) ==>
                View() == old(View()).(scale := old(scale) - ScaleStep, image := dest,
                                       childPos := CentreIn(win, dest.value),
                                       layoutXY := CentreIn(win, dest.value))
      // a zoom-out that keeps its lowered scale shows an image whose sides
      // are both above the floor
      ensures dest.Some? && scale == old(scale) - ScaleStep ==>
                image == dest && image.value.width > MinDimension && image.value.height > MinDimension
    {
      scale := scale - step;
      if dest.None? { return; }
      if TooSmall(dest.value) {
        scale := scale + step;
        return;
      }
      image := dest;
      var c := CentreIn(win, dest.value);
      childPos := c;
      layoutXY := c;
    }

    /** Button press: a drag starts at the pointer. */
    method ButtonPress(pointer: Point)
      requires Valid()
      modifies this
      ensures Valid() && imageSet == old(imageSet)
      ensures View() == old(View()).(drag := true, clickPos := pointer)
    {
      drag := true;
      clickPos := pointer;
    }

    /** Button release: the drag ends where the image now is. */
    method ButtonRelease()
      requires Valid()
      modifies this
      ensures Valid() && imageSet == old(imageSet)
      ensures View() == old(View()).(drag := false, layoutXY := old(childPos))
    {
      drag := false;
      layoutXY := childPos;
    }

    /** Pointer motion: while dragging an image wider or taller than the
        window, move it by the pointer's offset from the press, clamped per
        axis.  The handler unwraps the pixbuf, so one must be shown. */
    method Motion(pointer: Point, win: Size)
      requires Valid() && image.Some?
      modifies this
      ensures Valid() && imageSet == old(imageSet)
      ensures old(drag) && Overflows(old(image).value, win) ==>
                View() == old(View()).(childPos :=
                  ClampPoint(DragShift(old(layoutXY), old(clickPos), pointer), old(image).value, win))
      ensures !(old(drag) && Overflows(old(image).value, win)) ==> View() == old(View())
    {
      var img := image.value;
      var shift := DragShift(layoutXY, clickPos, pointer);
      if drag && Overflows(img, win) {
        childPos := ClampPoint(shift, img, win);
      }
    }

    /** Resize check: when the allocated size `alloc` differs from the one
        on record and a pixbuf is shown, record it and centre the image as
        it is now scaled, dropping any pan. */
    method Resize(alloc: Size)
      requires Valid()
      modifies this
      ensures Valid() && imageSet == old(imageSet)
      ensures old(wh) == alloc || old(image).None? ==> View() == old(View())
      ensures old(wh) != alloc && old(image).Some? ==>
                View() == old(View()).(wh := alloc, childPos := CentreIn(alloc, old(image).value))
    {
      if wh == alloc { return; }
      if image.None? { return; }
      var img := image.value;
      wh := alloc;
      childPos := CentreIn(alloc, img);
    }
  }
}
