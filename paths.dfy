/** File paths, the order `ImageSet::new` sorts them in, and the lookup of
    the current path.  All candidate paths are siblings in one directory, so
    they share their parent prefix and the component-wise order of paths
    coincides with the lexicographic order of their characters. */
module Paths {

  type Path = seq<char>

  datatype Option<T> = None | Some(value: T)

  /** Lexicographic "less than or equal" on paths. */
  predicate LexLe(a: Path, b: Path)
  {
    |a| == 0 || (|b| > 0 && (a[0] < b[0] || (a[0] == b[0] && LexLe(a[1..], b[1..]))))
  }

  lemma {:induction false} LexLeReflexive(a: Path)
    ensures LexLe(a, a)
  {
    if |a| > 0 { LexLeReflexive(a[1..]); }
  }

  lemma {:induction false} LexLeAntisymmetric(a: Path, b: Path)
    requires LexLe(a, b) && LexLe(b, a)
    ensures a == b
  {
    if |a| > 0 && |b| > 0 {
      LexLeAntisymmetric(a[1..], b[1..]);
      assert a == [a[0]] + a[1..] && b == [b[0]] + b[1..];
    }
  }

  lemma {:induction false} LexLeTransitive(a: Path, b: Path, c: Path)
    requires LexLe(a, b) && LexLe(b, c)
    ensures LexLe(a, c)
  {
    if |a| > 0 && a[0] == b[0] && b[0] == c[0] {
      LexLeTransitive(a[1..], b[1..], c[1..]);
    }
  }

  lemma {:induction false} LexLeTotal(a: Path, b: Path)
    ensures LexLe(a, b) || LexLe(b, a)
  {
    if |a| > 0 && |b| > 0 && a[0] == b[0] {
      LexLeTotal(a[1..], b[1..]);
    }
  }

  /** Every earlier path is at most every later one. */
  ghost predicate IsSorted(s: seq<Path>)
  {
    forall i, j :: 0 <= i < j < |s| ==> LexLe(s[i], s[j])
  }

  /** Inserts `p` before the first element it does not exceed. */
  function Insert(p: Path, s: seq<Path>): (r: seq<Path>)
    ensures multiset(r) == multiset(s) + multiset{p}
  {
    if s == [] then [p]
    else if LexLe(p, s[0]) then [p] + s
    else
      assert s == [s[0]] + s[1..];
      [s[0]] + Insert(p, s[1..])
  }

  lemma {:induction false} InsertSorted(p: Path, s: seq<Path>)
    requires IsSorted(s)
    ensures IsSorted(Insert(p, s))
  {
    if s == [] {
    } else if LexLe(p, s[0]) {
      var r := [p] + s;
      forall i, j | 0 <= i < j < |r| ensures LexLe(r[i], r[j]) {
        if i == 0 && j > 1 { LexLeTransitive(p, s[0], s[j - 1]); }
      }
    } else {
      LexLeTotal(p, s[0]);
      InsertSorted(p, s[1..]);
      var t := Insert(p, s[1..]);
      var r := [s[0]] + t;
      assert forall k :: 0 <= k < |t| ==> t[k] in multiset(s[1..]) + multiset{p};
      forall j | 0 < j < |r| ensures LexLe(s[0], r[j]) {
        var x := t[j - 1];
        assert x in multiset(s[1..]) + multiset{p};
        if x != p {
          assert x in s[1..];
        }
      }
    }
  }

  /** The paths in ascending order (the model of `images.sort()`). */
  function SortPaths(s: seq<Path>): (r: seq<Path>)
    ensures multiset(r) == multiset(s)
  {
    if s == [] then []
    else
      assert s == [s[0]] + s[1..];
      Insert(s[0], SortPaths(s[1..]))
  }

  lemma {:induction false} SortPathsSorted(s: seq<Path>)
    ensures IsSorted(SortPaths(s))
  {
    if s != [] {
      SortPathsSorted(s[1..]);
      InsertSorted(s[0], SortPaths(s[1..]));
    }
  }

  /** The sorted sequence starts with a smallest path. */
  lemma SortedHeadIsLeast(s: seq<Path>, q: Path)
    requires IsSorted(s) && q in s
    ensures LexLe(s[0], q)
  {
    var k :| 0 <= k < |s| && s[k] == q;
    if k == 0 { LexLeReflexive(q); }
  }

  lemma TailMultiset(s: seq<Path>)
    requires s != []
    ensures multiset(s[1..]) == multiset(s) - multiset{s[0]}
  {
    assert s == [s[0]] + s[1..];
  }

  /** Two sorted arrangements of the same paths are the same sequence, so
      `SortPaths` gives exactly the order any sort produces. */
  lemma {:induction false} SortedUnique(a: seq<Path>, b: seq<Path>)
    requires IsSorted(a) && IsSorted(b) && multiset(a) == multiset(b)
    ensures a == b
  {
    if a != [] {
      assert a[0] in multiset(a);
      assert b != [];
      assert b[0] in multiset(b);
      SortedHeadIsLeast(a, b[0]);
      SortedHeadIsLeast(b, a[0]);
      LexLeAntisymmetric(a[0], b[0]);
      TailMultiset(a);
      TailMultiset(b);
      assert IsSorted(a[1..]) && IsSorted(b[1..]);
      SortedUnique(a[1..], b[1..]);
      assert a == [a[0]] + a[1..] && b == [b[0]] + b[1..];
    }
  }

  /** First index of `p` in `s` (`Iterator::position`). */
  function Position(s: seq<Path>, p: Path): (r: Option<nat>)
    ensures r.None? <==> p !in s
    ensures r.Some? ==> r.value < |s| && s[r.value] == p
    ensures r.Some? ==> forall j :: 0 <= j < r.value ==> s[j] != p
  {
    if s == [] then None
    else if s[0] == p then Some(0)
    else
      assert s == [s[0]] + s[1..];
      match Position(s[1..], p)
      case None => None
      case Some(i) => Some(i + 1)
  }

  /** `get_image_index`: the first index of `p`, or 0 when it is absent. */
  function GetImageIndex(s: seq<Path>, p: Path): (r: nat)
    ensures r == 0 <==> p !in s || s[0] == p
    ensures r > 0 ==> r < |s| && s[r] == p && s[0] != p
    ensures r > 0 ==> forall j :: 0 <= j < r ==> s[j] != p
  {
    match Position(s, p)
    case None => 0
    case Some(i) => i
  }

  /** The constructor's index is 0 (navigation disabled) exactly when the
      current path is missing or is the least of all candidate paths; this
      holds for any sorted arrangement `s` of the paths, `SortPaths`'s
      among them. */
  lemma IndexZeroIff(paths: seq<Path>, s: seq<Path>, current: Path)
    requires IsSorted(s) && multiset(s) == multiset(paths)
    ensures GetImageIndex(s, current) == 0 <==>
            (current !in paths || forall q :: q in paths ==> LexLe(current, q))
  {
    assert forall q :: q in s <==> q in paths by {
      forall q ensures q in s <==> q in paths {
        assert q in s <==> q in multiset(s);
        assert q in paths <==> q in multiset(paths);
      }
    }
    if current in paths {
      if GetImageIndex(s, current) == 0 {
        forall q | q in paths ensures LexLe(current, q) { SortedHeadIsLeast(s, q); }
      } else if forall q :: q in paths ==> LexLe(current, q) {
        SortedHeadIsLeast(s, current);
        LexLeAntisymmetric(current, s[0]);
      }
    }
  }
}
