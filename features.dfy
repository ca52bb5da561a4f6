/**
 * The procedures grid: a fixed list of procedures shown nine to a page,
 * with a pager that selects the 1-based page number.
 */
module Features {
  import opened IntMath

  /** Cards per page. */
  const ItemsPerPage: nat := 9

  /** Number of procedures listed in the grid. */
  const FeatureCount: nat := 12

  /** Resolves one bound of `Array.prototype.slice`: a negative bound counts
      from the end (floored at 0), a non-negative one is capped at the length. */
  function SliceBound(bound: int, len: nat): (b: nat)
    ensures b <= len
    ensures 0 <= bound <= len ==> b == bound
    ensures bound > len ==> b == len
    ensures bound < 0 ==> b == Max(len + bound, 0)
  {
    if bound < 0 then Max(len + bound, 0) else Min(bound, len)
  }

  /** `xs.slice(from, to)`: the items between the resolved bounds, or
      nothing when the resolved start is not before the resolved end. */
  function Slice<T>(xs: seq<T>, from: int, to: int): (r: seq<T>)
    ensures 0 <= from <= to <= |xs| ==> r == xs[from..to]
    ensures from >= |xs| ==> r == []
    ensures |r| <= |xs|
  {
    var lo := SliceBound(from, |xs|);
    var hi := SliceBound(to, |xs|);
    if lo < hi then xs[lo..hi] else []
  }

  /** `ceil(len / 9)` pagination buttons. */
  function PageCount(len: nat): (p: nat)
    ensures p * ItemsPerPage >= len
    ensures p == 0 || (p - 1) * ItemsPerPage < len
  {
    CeilDiv(len, ItemsPerPage)
  }

  /** The cards shown for `page`: the slice from `(page - 1) * 9` of
      length 9. */
  function PageItems<T>(xs: seq<T>, page: int): (r: seq<T>)
    ensures |r| <= ItemsPerPage
  {
    var start := (page - 1) * ItemsPerPage;
    Slice(xs, start, start + ItemsPerPage)
  }

  /** The twelve procedures fill two pages. */
  lemma TwoPagesOfFeatures()
    ensures PageCount(FeatureCount) == 2
  {
  }

  /** A page within range shows the next run of up to nine items, never
      an empty one: `min(9, len - (page - 1) * 9)` of them. */
  lemma PageWithinRange<T>(xs: seq<T>, page: int)
    requires 1 <= page <= PageCount(|xs|)
    ensures var start := (page - 1) * ItemsPerPage;
            PageItems(xs, page) == xs[start..Min(start + ItemsPerPage, |xs|)]
    ensures |PageItems(xs, page)| == Min(ItemsPerPage, |xs| - (page - 1) * ItemsPerPage)
    ensures PageItems(xs, page) != []
  {
  }

  /** A page past the last one shows nothing. */
  lemma PageBeyondRange<T>(xs: seq<T>, page: int)
    requires page > PageCount(|xs|)
    ensures PageItems(xs, page) == []
  {
    assert (page - 1) * ItemsPerPage >= PageCount(|xs|) * ItemsPerPage;
  }

  /** With twelve items, page 1 shows indices 0..8 and page 2 indices 9..11. */
  lemma FeaturePages<T>(xs: seq<T>)
    requires |xs| == FeatureCount
    ensures PageItems(xs, 1) == xs[0..9]
    ensures PageItems(xs, 2) == xs[9..12]
    ensures PageItems(xs, 3) == []
  {
  }

  /** Pages 1 to `k` laid end to end. */
  function PagesUpTo<T>(xs: seq<T>, k: nat): seq<T>
  {
    if k == 0 then [] else PagesUpTo(xs, k - 1) + PageItems(xs, k)
  }

  /** The first `k` pages are exactly the first `min(9k, len)` items. */
  lemma {:induction false} PagesUpToIsPrefix<T>(xs: seq<T>, k: nat)
    ensures PagesUpTo(xs, k) == xs[..Min(k * ItemsPerPage, |xs|)]
  {
    if k > 0 {
      PagesUpToIsPrefix(xs, k - 1);
      var lo := Min((k - 1) * ItemsPerPage, |xs|);
      var hi := Min(k * ItemsPerPage, |xs|);
      assert k * ItemsPerPage == (k - 1) * ItemsPerPage + ItemsPerPage;
      if (k - 1) * ItemsPerPage < |xs| {
        assert PageItems(xs, k) == xs[lo..hi];
      } else {
        assert PageItems(xs, k) == [];
        assert lo == hi;
      }
      assert xs[..lo] + xs[lo..hi] == xs[..hi];
    }
  }

  /** The pages partition the list: read in order, pages 1 to
      `pageCount` reproduce every item exactly once. */
  lemma PagesPartitionList<T>(xs: seq<T>)
    ensures PagesUpTo(xs, PageCount(|xs|)) == xs
  {
    PagesUpToIsPrefix(xs, PageCount(|xs|));
  }

  /** Each item has one home: item `j` is card `j mod 9` of page `j div 9 + 1`. */
  lemma ItemOnItsPage<T>(xs: seq<T>, j: nat)
    requires j < |xs|
    ensures j % ItemsPerPage < |PageItems(xs, j / ItemsPerPage + 1)|
    ensures PageItems(xs, j / ItemsPerPage + 1)[j % ItemsPerPage] == xs[j]
  {
    var page := j / ItemsPerPage + 1;
    assert (page - 1) * ItemsPerPage + j % ItemsPerPage == j;
  }

  /** The grid's state: the procedures and the selected page. */
  class FeaturesGrid<T> {
    const features: seq<T>
    var page: int

    /** The grid opens on page 1. */
    constructor (items: seq<T>)
      ensures features == items && page == 1
    {
      features := items;
      page := 1;
    }

    /** The pager's change handler stores the chosen page as it is. */
    method HandleChange(value: int)
      modifies this`page
      ensures page == value
    {
      page := value;
    }

    /** The cards the grid renders for the selected page. */
    method SelectedFeatures() returns (shown: seq<T>)
      ensures shown == PageItems(features, page)
      ensures 1 <= page <= PageCount(|features|) ==> shown != []
    {
      var start := (page - 1) * ItemsPerPage;
      shown := Slice(features, start, start + ItemsPerPage);
      if 1 <= page <= PageCount(|features|) {
        PageWithinRange(features, page);
      }
    }
  }
}
