/** Client scenarios: what a caller can conclude from the contracts alone
    about browsing a directory and about centring and dragging an image. */
module Scenarios {
  import opened Paths
  import opened ImageSets
  import opened Viewport
  import opened Controllers

  lemma SortThree()
    ensures SortPaths(["c.png", "a.png", "b.png"]) == ["a.png", "b.png", "c.png"]
  {
    var listing := ["c.png", "a.png", "b.png"];
    var sorted := ["a.png", "b.png", "c.png"];
    SortPathsSorted(listing);
    assert LexLe(sorted[0], sorted[1]) && LexLe(sorted[0], sorted[2]) && LexLe(sorted[1], sorted[2]);
    assert multiset(listing) == multiset(sorted);
    SortedUnique(SortPaths(listing), sorted);
  }

  lemma IndexOfMiddle()
    ensures GetImageIndex(SortPaths(["c.png", "a.png", "b.png"]), "b.png") == 1
  {
    SortThree();
    var sorted := ["a.png", "b.png", "c.png"];
    assert sorted[0] != "b.png" && sorted[2] != "b.png";
  }

  method BrowseForward()
  {
    IndexOfMiddle();
    var images := new ImageSet(["c.png", "a.png", "b.png"], "b.png");
    SortThree();
    assert images.currImageIndex == 1 && images.len == 3;
    var p := images.Next();
    assert p == Some("c.png");
    p := images.Next();
    assert p == Some("a.png");
  }

  method BrowseBackward()
  {
    IndexOfMiddle();
    var images := new ImageSet(["c.png", "a.png", "b.png"], "b.png");
    SortThree();
    var p := images.Prev();
    assert p == Some("a.png");
  }

  /** The path that sorts first disables navigation, as a missing one does. */
  method FirstOrMissingDisables()
  {
    SortThree();
    var first := new ImageSet(["c.png", "a.png", "b.png"], "a.png");
    assert first.len == 0;
    var p := first.Next();
    assert p == None;
    var missing := new ImageSet(["c.png", "a.png", "b.png"], "z.png");
    assert missing.len == 0;
  }

  method CentreAndDrag(imageSet: ImageSet)
    requires imageSet.Valid()
  {
    var c := new Controller(imageSet, None, Point(0, 0));
    c.SetFromFile(Some(Size(1000, 800)));
    c.Resize(Size(400, 400));
    assert c.childPos == Point(-300, -200);

    c.ButtonPress(Point(10, 10));
    c.Motion(Point(900, 10), Size(400, 400));
    // dragged far right: pinned to the left edge; the resize did not
    // refresh layout_xy, so the vertical offset starts again from 0
    assert c.childPos == Point(0, 0);
    c.Motion(Point(-900, 10), Size(400, 400));
    // dragged far left: pinned so the right edge meets the window's
    assert c.childPos == Point(-600, 0);
    assert c.layoutXY == Point(0, 0);
    c.ButtonRelease();
    assert c.layoutXY == Point(-600, 0) && !c.drag;

    // the same size on record again is not a resize
    c.Resize(Size(400, 400));
    assert c.childPos == Point(-600, 0);
  }

  method ZoomCeiling(imageSet: ImageSet)
    requires imageSet.Valid()
  {
    var c := new Controller(imageSet, None, Point(0, 0));
    var k := 0;
    while k < 29
      invariant 0 <= k <= 29
      invariant c.Valid() && c.imageSet == imageSet && c.scale == InitialScale + k
      invariant k > 0 ==> c.image == Some(Size(500, 500))
      invariant fresh(c)
    {
      c.ZoomIn(Size(400, 400), Some(Size(500, 500)));
      k := k + 1;
    }
    assert c.scale == 39;
    c.ZoomIn(Size(400, 400), Some(Size(2000, 2000)));
    assert c.scale == 39 && c.image == Some(Size(500, 500));
  }
}
