# iw image viewer: navigator and viewport state machine

This project models the toolkit-independent core of `iw`, a GTK image
viewer written in Rust, and proves properties of the model in Dafny.

- **`ImageSet`** (`src/image_handler/image_set.rs`) is a cyclic navigator
  over the sibling image paths of a directory. It sorts the paths once,
  looks up the path the viewer was opened on, and then steps a cursor
  forward (`next`) or backward (`prev`) with wrap-around.
- **`Controller`** (`src/image_handler/controller.rs`) keeps shared state
  that the GTK event closures update in place. The state is the zoom scale
  and its step, the last window size seen (`wh`), the pointer position at
  the last button press, the drag base offset `layout_xy`, the drag flag,
  the image's child position in the layout and the size of the pixbuf on
  show. The key, scroll, button, motion and resize handlers are
  transitions of this state.

Files and modules:

- `paths.dfy`, module `Paths`: paths as character sequences, their
  lexicographic order, a sort proved sorted, a permutation and unique, and
  `get_image_index`.
- `arith.dfy`, module `Arith`: Rust's signed `%` and `abs`, truncating
  halving, and facts about Euclidean `%`.
- `image_set.dfy`, module `ImageSets`: the cursor arithmetic as
  specification functions with round-trip and full-cycle lemmas, and the
  class `ImageSet`.
- `viewport.dfy`, module `Viewport`: centring and the per-axis drag clamp.
- `controller.dfy`, module `Controllers`: the class `Controller`, one method
  per handler. Each method's `ensures` gives the whole new state as an
  update of the old one (`View() == old(View()).(field := ...)`), so it
  also says which cells stay unchanged.
- `scenarios.dfy`, module `Scenarios`: verified client code. It browses a
  three-image directory and centres, drags and zooms an image, using the
  contracts and the specification functions above.

Data that GTK computes is passed in as parameters:

- the natural size of a decoded file;
- the rounded size of a rescaled pixbuf;
- the window's allocated size;
- the pointer position, already cast to `i32`.

The scale is a whole number of tenths, so 1.0 is 10, the step 0.10 is 1 and
the ceiling 4.0 is 40.

Behaviour kept from the code, although a plain reading of the viewer's
intent might expect otherwise:

- `ImageSet::new` treats an index of 0 as "not found". So a current path
  that sorts first empties the set, exactly as a missing path does
  (`Paths.IndexZeroIff`).
- A button press only records the pointer and sets the flag. It is the
  release that copies the child position into `layout_xy`.
- While dragging, an axis on which the image fits the window is not left
  alone: the clamp snaps it to offset 0 or to `win - img`, and on such an
  axis it reverses the order of offsets (`Viewport.ClampReversesWhereFits`).
- A zoom that passes the ceiling test and finds no original pixbuf keeps the
  changed scale. Nothing reverts it. A zoom-in that reaches the ceiling is
  reverted before the pixbuf is looked at.
- A resize while no pixbuf is shown returns before it records the new size.
- Resize recentres the image but does not update `layout_xy`. The next drag
  therefore starts from the offset held before the resize, and the image
  jumps (`Scenarios.CentreAndDrag` shows this).
- Navigation leaves the drag flag and the click position as they were.

## Model

| member | source | states |
|---|---|---|
| `Paths.LexLeReflexive` | src/image_handler/image_set.rs:12 | the path order is reflexive |
| `Paths.LexLeAntisymmetric` | src/image_handler/image_set.rs:12 | paths ordered both ways are equal |
| `Paths.LexLeTransitive` | src/image_handler/image_set.rs:12 | the path order is transitive |
| `Paths.LexLeTotal` | src/image_handler/image_set.rs:12 | any two paths are comparable |
| `Paths.Insert` | src/image_handler/image_set.rs:12 | inserting adds exactly one occurrence of the path (multiset) |
| `Paths.InsertSorted` | src/image_handler/image_set.rs:12 | inserting into a sorted sequence keeps it sorted |
| `Paths.SortPaths` | src/image_handler/image_set.rs:12 | the sorted paths are a permutation of the input |
| `Paths.SortPathsSorted` | src/image_handler/image_set.rs:12 | the sorted paths are in ascending order |
| `Paths.SortedUnique` | src/image_handler/image_set.rs:12 | two sorted permutations of the same paths are equal, so the stored order is the order any sort gives |
| `Paths.SortedHeadIsLeast` | src/image_handler/image_set.rs:12 | the first sorted path is at most every path |
| `Paths.Position` | src/image_handler/image_set.rs:26 | `None` exactly when the path is absent; otherwise the first index holding it |
| `Paths.GetImageIndex` | src/image_handler/image_set.rs:25-27 | 0 exactly when the path is absent or first; otherwise the first index holding the path |
| `Paths.IndexZeroIff` | src/image_handler/image_set.rs:13-16 | for the sorted paths, navigation is disabled exactly when the current path is missing or least among all the paths |
| `Arith.TruncRem` | src/image_handler/image_set.rs:40 | signed `%` keeps the dividend's sign, stays below the divisor in magnitude, and is the identity on `[0, divisor)` |
| `Arith.Abs` | src/image_handler/image_set.rs:40 | `abs` gives the value or its negation, never negative |
| `Arith.Half` | src/image_handler/controller.rs:188-191 | `(v as f32 / 2.0) as i32` is half of `v` truncated toward zero |
| `ImageSets.NextIndex` | src/image_handler/image_set.rs:31 | the next index stays below `len` |
| `ImageSets.PrevIndex` | src/image_handler/image_set.rs:39-43 | the previous index stays below `len` |
| `ImageSets.NextIterClosedForm` | src/image_handler/image_set.rs:31 | `k` calls of `next` from `i` reach `(i + k) % len` |
| `ImageSets.PrevIterClosedForm` | src/image_handler/image_set.rs:39-43 | `k` calls of `prev` from `i` reach `(i - k) mod len` |
| `ImageSets.NextFullCycle` | src/image_handler/image_set.rs:31 | `len` calls of `next` return to the starting index |
| `ImageSets.PrevFullCycle` | src/image_handler/image_set.rs:39-43 | `len` calls of `prev` return to the starting index |
| `ImageSets.NextReachesEvery` | src/image_handler/image_set.rs:31 | every index is reached from every other by fewer than `len` calls of `next` |
| `ImageSets.PrevAfterNext` | src/image_handler/image_set.rs:31-43 | `prev` right after `next` restores the index |
| `ImageSets.NextAfterPrev` | src/image_handler/image_set.rs:31-43 | `next` right after `prev` restores the index |
| `ImageSets.ImageSet.constructor` | src/image_handler/image_set.rs:11-24 | the paths are stored sorted with `len` equal to their count and the cursor at the current path; index 0 gives an empty set with `len == 0` and cursor 0 |
| `ImageSets.ImageSet.Next` | src/image_handler/image_set.rs:29-35 | on an empty set: `None`, nothing changes; otherwise the cursor moves to `(i + 1) % len`, its path is returned, and the paths and `len` are unchanged |
| `ImageSets.ImageSet.Prev` | src/image_handler/image_set.rs:37-47 | on an empty set: `None`, nothing changes; otherwise the source's `if`, signed `%` and `abs` move the cursor to `i - 1`, or to `len - 1` from 0, and its path is returned |
| `Viewport.Centre` | src/image_handler/controller.rs:186-194 | the centred offset leaves margins that differ by at most one pixel; an image that fits lies inside the window; one that overflows covers it |
| `Viewport.ClampAxis` | src/image_handler/controller.rs:298-311 | with `img >= win` the result lies in `[-(img - win), 0]` and equals an in-range shift; with `img < win` the image is snapped to offset 0 or `win - img` |
| `Viewport.ClampNearest` | src/image_handler/controller.rs:298-311 | the clamped offset is the allowed offset nearest the shift, so a positive shift gives 0 and one below the range gives `-(img - win)` |
| `Viewport.ClampMonotone` | src/image_handler/controller.rs:298-311 | on an axis on which the image overflows, the clamp preserves the order of shifts |
| `Viewport.ClampKeepsCentre` | src/image_handler/controller.rs:186-194 | on an axis on which the image overflows, the centred offset stays in place under the clamp |
| `Viewport.ClampReversesWhereFits` | src/image_handler/controller.rs:298-311 | on an axis on which the image fits, the clamp can reverse the order of two offsets (0 gives 100, 1 gives 0 for a 300-pixel image in a 400-pixel window) |
| `Viewport.CentreIn` | src/image_handler/controller.rs:188-194 | on both axes the margins left by the centred offset differ by at most one pixel |
| `Viewport.ClampPoint` | src/image_handler/controller.rs:298-311 | per axis, an overflowing image keeps the window covered and a fitting one stays wholly visible; a shift that covers the window on both axes is kept |
| `Viewport.DragShiftComposes` | src/image_handler/controller.rs:287-288 | for unclamped shifts, `layout_xy + (event - click_pos)` composes: two legs land where one drag from the original press does, and an unmoved pointer gives `layout_xy`; release stores the clamped position, so real drags need not compose |
| `Viewport.Overflows` | src/image_handler/controller.rs:292 | the drag condition; an image that does not overflow lies wholly inside the window once centred |
| `Controllers.TooSmallUpwardClosed` | src/image_handler/controller.rs:211 | zoom-out's floor is upward closed: a size at least as large on both sides as an accepted one is accepted |
| `Controllers.Controller.constructor` | src/image_handler/controller.rs:40-52 | scale 1.0, step 0.10, zero window size, click position and `layout_xy`, no drag; the pixbuf and the layout's child position are whatever the widgets already hold |
| `Controllers.Controller.SetFromFile` | src/image_handler/controller.rs:55-72 | the shown pixbuf becomes the file's; when it decodes, `wh` becomes its natural size; nothing else changes |
| `Controllers.Controller.Navigate` | src/image_handler/controller.rs:89-138 | an empty set changes nothing; otherwise the cursor steps as `next`/`prev` do, scale is 1.0, step 0.10, position and `layout_xy` are (0, 0), and `wh` and the shown size are the new image's natural size |
| `Controllers.Controller.ZoomIn` | src/image_handler/controller.rs:160-195 | a step reaching 4.0 is reverted and changes nothing; with no pixbuf only the scale rises; otherwise the scale rises and the position and `layout_xy` both become the centred offset of the rescaled size |
| `Controllers.Controller.ZoomOut` | src/image_handler/controller.rs:196-230 | with no pixbuf only the scale drops; a rescaled side of at most 20 (`TooSmall`, line 211) is reverted and changes nothing; otherwise the scale drops, the position and `layout_xy` become the centred offset, and the image shown has both sides above 20 |
| `Controllers.Controller.ButtonPress` | src/image_handler/controller.rs:244-252 | drag is on and the click position is the pointer; nothing else changes |
| `Controllers.Controller.ButtonRelease` | src/image_handler/controller.rs:258-265 | drag is off and `layout_xy` is the child position; nothing else changes |
| `Controllers.Controller.Motion` | src/image_handler/controller.rs:273-318 | only with drag on and an overflowing image (`Overflows`, line 292) does the position become the per-axis clamp of `DragShift`, that is `layout_xy + (pointer - click)` (lines 287-288); `layout_xy` and all other cells never change |
| `Controllers.Controller.Resize` | src/image_handler/controller.rs:325-361 | an unchanged size or a missing pixbuf changes nothing; otherwise `wh` is the new size and the position centres the current image; `layout_xy` is untouched |
| `Scenarios.SortThree` | src/image_handler/image_set.rs:12 | `c.png, a.png, b.png` sort to `a.png, b.png, c.png` |
| `Scenarios.IndexOfMiddle` | src/image_handler/image_set.rs:13 | with current `b.png` among `c.png, a.png, b.png` the cursor starts at index 1 |

## Left out

- GTK and GDK calls are not modelled, as they are foreign widget code.
  These are `set_from_file`'s decoding, `get_pixbuf`, `scale_simple`'s
  bilinear resampling, `window.resize`, `set_title`, `layout.set_size`,
  `add_events` and `gtk::main_quit`. Their numeric results enter as
  parameters.
- The Escape key, keycode dispatch and `println!` are not modelled. They
  hold no state.
- `Rc<RefCell<…>>` sharing is left out. The state is one object owned by
  its caller.
- `src/main.rs` is not part of this model. It holds argument handling,
  `canonicalize`, the directory listing, the extension filter and window
  setup, all of which are I/O.
- Paths are compared as character sequences. `PathBuf` compares by
  components, but sibling paths share their parent, so the two orders agree.
  File names that are not valid UTF-8 are outside the model; on such a name
  both navigation branches panic at `to_str().unwrap()`.
- `Vec::sort` is the standard library's in-place sort. It is modelled by
  the function `SortPaths`, and the uniqueness lemma makes its result the
  one any sort gives. The vector is owned by `new`, so updating it in place
  is not visible to callers.
- Controllers.Controller.ZoomIn: the `f32` accumulation of `curr_scale` is
  not modelled. In `f32`, 1.0 plus thirty steps of 0.1 is 3.9999983, so the
  source accepts a thirtieth zoom-in that the exact tenths reject. The
  revert `(s + 0.1) - 0.1` is also exact here but not in `f32`.
- Controllers.Controller.ZoomOut: the rescaled size is an input, not
  `round(natural * scale)` in `f64`. So the model does not tie it to the
  scale.
- Controllers.Controller.Navigate: the model takes the natural size of
  every path as given. The source panics through `get_pixbuf().unwrap()`
  when the file does not decode.
- Controllers.Controller.constructor: the layout child's initial position is
  an input. `Controller::new` does not set it; the Glade layout decides it,
  and the Glade file is not part of this model.
- `Controllers.Controller.Motion` requires a pixbuf to be shown, because
  the handler unwraps it and panics otherwise.
- Arith.Half: `f32` halving is exact only below 2^24; the model halves
  exactly.
- ImageSets.ImageSet.Prev: the `as i32` cast of the index, which wraps at
  2^31, is not modelled.
- `i32` overflow of the drag shift is not modelled, since integers are
  unbounded here.
- The choice of pixbuf the zoom reads is not modelled. Normally it is the
  decoded original; after a failed `set_from_file` it is the shown image.
  The rescaled size is given either way.
