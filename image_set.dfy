/** The cyclic navigator over the sorted sibling paths
    (`src/image_handler/image_set.rs`). */
module ImageSets {
  import opened Paths
  import opened Arith

  /** The index after `i` in a cycle of `n` positions. */
  function NextIndex(i: nat, n: nat): (r: nat)
    requires n > 0
    ensures r < n
  {
    (i + 1) % n
  }

  /** The index before `i` in a cycle of `n` positions (Euclidean `%`, so
      the index before 0 is `n - 1`). */
  function PrevIndex(i: nat, n: nat): (r: nat)
    requires n > 0
    ensures r < n
  {
    (i - 1) % n
  }

  /** `k` steps forward from `i`. */
  function NextIter(i: nat, n: nat, k: nat): (r: nat)
    requires n > 0
  {
    if k == 0 then i else NextIndex(NextIter(i, n, k - 1), n)
  }

  /** `k` steps backward from `i`. */
  function PrevIter(i: nat, n: nat, k: nat): (r: nat)
    requires n > 0
  {
    if k == 0 then i else PrevIndex(PrevIter(i, n, k - 1), n)
  }

  lemma {:induction false} NextIterClosedForm(i: nat, n: nat, k: nat)
    requires 0 < n && i < n
    ensures NextIter(i, n, k) == (i + k) % n
  {
    if k > 0 {
      NextIterClosedForm(i, n, k - 1);
      ModAdd(i + k - 1, 1, n);
    }
  }

  lemma {:induction false} PrevIterClosedForm(i: nat, n: nat, k: nat)
    requires 0 < n && i < n
    ensures PrevIter(i, n, k) == (i - k) % n
  {
    if k > 0 {
      PrevIterClosedForm(i, n, k - 1);
      ModAdd(i - k + 1, -1, n);
    }
  }

  /** `len` calls of `next` bring the cursor back to where it started. */
  lemma NextFullCycle(i: nat, n: nat)
    requires 0 < n && i < n
    ensures NextIter(i, n, n) == i
  {
    NextIterClosedForm(i, n, n);
    ModUnique(i + n, 1, i, n);
  }

  /** `len` calls of `prev` bring the cursor back to where it started. */
  lemma PrevFullCycle(i: nat, n: nat)
    requires 0 < n && i < n
    ensures PrevIter(i, n, n) == i
  {
    PrevIterClosedForm(i, n, n);
    ModUnique(i - n, -1, i, n);
  }

  /** Fewer than `len` calls of `next` reach every position. */
  lemma NextReachesEvery(i: nat, j: nat, n: nat)
    requires 0 < n && i < n && j < n
    ensures NextIter(i, n, (j - i) % n) == j
  {
    var k := (j - i) % n;
    NextIterClosedForm(i, n, k);
    if i <= j {
      ModUnique(j - i, 0, j - i, n);
    } else {
      ModUnique(j - i, -1, j - i + n, n);
      ModUnique(j + n, 1, j, n);
    }
    ModUnique(j, 0, j, n);
  }

  /** `prev` undoes `next`. */
  lemma PrevAfterNext(i: nat, n: nat)
    requires 0 < n && i < n
    ensures PrevIndex(NextIndex(i, n), n) == i
  {
    ModAdd(i + 1, -1, n);
  }

  /** `next` undoes `prev`. */
  lemma NextAfterPrev(i: nat, n: nat)
    requires 0 < n && i < n
    ensures NextIndex(PrevIndex(i, n), n) == i
  {
    ModAdd(i - 1, 1, n);
  }

  class ImageSet {
    var images: seq<Path>
    var currImageIndex: nat
    var len: nat

    /** `len` mirrors the sequence, the paths stay sorted and the cursor
        points into them whenever there are any. */
    ghost predicate Valid()
      reads this
    {
      len == |images| && IsSorted(images) &&
      (len == 0 ==> currImageIndex == 0) &&
      (len > 0 ==> currImageIndex < len)
    }

    /** `ImageSet::new`: sorts the paths and looks up the current one; an
        index of 0 (missing, or genuinely first) empties the set. */
    constructor (paths: seq<Path>, current: Path)
      ensures Valid()
      ensures var sorted := SortPaths(paths);
              var index := GetImageIndex(sorted, current);
              if index == 0 then images == [] && currImageIndex == 0 && len == 0
              else images == sorted && currImageIndex == index && len == |paths|
    {
      var sorted := SortPaths(paths);
      SortPathsSorted(paths);
      var index := GetImageIndex(sorted, current);
      var n := |sorted|;
      assert n == |multiset(sorted)| == |multiset(paths)| == |paths|;
      if index == 0 {
        images, currImageIndex, len := [], 0, 0;
      } else {
        images, currImageIndex, len := sorted, index, n;
      }
    }

    /** `next`: advances the cursor with wrap-around and returns its path. */
    method Next() returns (r: Option<Path>)
      requires Valid()
      modifies this
      ensures Valid() && images == old(images) && len == old(len)
      ensures len == 0 ==> r == None && currImageIndex == old(currImageIndex)
      ensures len > 0 ==> currImageIndex == NextIndex(old(currImageIndex), len) &&
                          r == Some(images[currImageIndex])
    {
      if len == 0 { return None; }
      currImageIndex := (currImageIndex + 1) % len;
      r := Some(images[currImageIndex]);
    }

    /** `prev`: retreats the cursor with wrap-around and returns its path.
        The decrement goes through the source's signed `%` and `abs`. */
    method Prev() returns (r: Option<Path>)
      requires Valid()
      modifies this
      ensures Valid() && images == old(images) && len == old(len)
      ensures len == 0 ==> r == None && currImageIndex == old(currImageIndex)
      ensures len > 0 ==> currImageIndex == PrevIndex(old(currImageIndex), len) &&
                          r == Some(images[currImageIndex])
    {
      if len == 0 { return None; }
      if currImageIndex > 0 {
        var m := TruncRem(currImageIndex - 1, len);
        assert m == currImageIndex - 1;
        currImageIndex := Abs(m);
      } else {
        currImageIndex := len - 1;
      }
      r := Some(images[currImageIndex]);
    }
  }
}
