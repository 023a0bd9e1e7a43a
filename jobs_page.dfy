/** The public jobs page: the current page, the selected job, the search
    in the address bar, and the row of page buttons under the listing. */
module JobsPage {
  import opened Wrappers
  import opened Seqs

  /** An entry of the page-button row: a page number or the `'...'` gap. */
  datatype PageItem = Num(n: int) | Ellipsis

  const MAX_VISIBLE_PAGES := 5

  /** The buttons `a`, `a + 1`, ..., `b` (none when `a > b`). */
  function Range(a: int, b: int): (r: seq<PageItem>)
    ensures |r| == if a <= b then b - a + 1 else 0
    decreases b - a
  {
    if a > b then [] else [Num(a)] + Range(a + 1, b)
  }

  /** The `i`-th button of `Range(a, b)` is page `a + i`. */
  lemma {:induction false} RangeAt(a: int, b: int)
    ensures forall i :: 0 <= i < |Range(a, b)| ==> Range(a, b)[i] == Num(a + i)
    decreases b - a
  {
    if a <= b {
      RangeAt(a + 1, b);
    }
  }

  /** Appending `b + 1` to the buttons up to `b`. */
  lemma RangeSnoc(a: int, b: int)
    requires a <= b + 1
    ensures Range(a, b) + [Num(b + 1)] == Range(a, b + 1)
  {
    var r, t := Range(a, b) + [Num(b + 1)], Range(a, b + 1);
    RangeAt(a, b);
    RangeAt(a, b + 1);
    assert |r| == |t|;
    forall i | 0 <= i < |t| ensures r[i] == t[i] {
      if i < |t| - 1 {
        assert r[i] == Range(a, b)[i];
      }
    }
  }

  /** The first button of the central window, two before the current page. */
  function StartPage(currentPage: int): int
  {
    Max(1, currentPage - 2)
  }

  /** The last button of the central window: five buttons from the start,
      cut off at the last page. */
  function EndPage(currentPage: int, totalPages: int): int
  {
    Min(totalPages, StartPage(currentPage) + MAX_VISIBLE_PAGES - 1)
  }

  /** Page 1 and a gap, when the window starts later. */
  function Lead(start: int): seq<PageItem>
  {
    if start > 1 then [Num(1)] + (if start > 2 then [Ellipsis] else []) else []
  }

  /** A gap and the last page, when the window ends earlier. */
  function Trail(end: int, totalPages: int): seq<PageItem>
  {
    if end < totalPages then (if end < totalPages - 1 then [Ellipsis] else []) + [Num(totalPages)] else []
  }

  /** The page-button row for the listing's page count (none before the
      listing has loaded) and the current page. */
  function PageNumbers(data: Option<int>, currentPage: int): seq<PageItem>
  {
    match data
    case None => []
    case Some(totalPages) =>
      if totalPages <= MAX_VISIBLE_PAGES then Range(1, totalPages)
      else
        var start := StartPage(currentPage);
        var end := EndPage(currentPage, totalPages);
        Lead(start) + Range(start, end) + Trail(end, totalPages)
  }

  // Properties of the page-button row.

  /** Page numbers rise strictly from left to right. */
  predicate Increasing(r: seq<PageItem>)
  {
    forall i, j :: 0 <= i < j < |r| && r[i].Num? && r[j].Num? ==> r[i].n < r[j].n
  }

  /** Every page number lies in `[lo, hi]`. */
  predicate Within(r: seq<PageItem>, lo: int, hi: int)
  {
    forall i :: 0 <= i < |r| && r[i].Num? ==> lo <= r[i].n <= hi
  }

  /** Every gap sits between two page numbers that are at least two apart. */
  predicate GapsBridged(r: seq<PageItem>)
  {
    forall i :: 0 <= i < |r| && r[i].Ellipsis? ==>
      (&& 0 < i < |r| - 1
       && r[i - 1].Num? && r[i + 1].Num?
       && r[i + 1].n - r[i - 1].n >= 2)
  }

  /** Two increasing rows, the first below `m` and the second from `m` on,
      make an increasing row. */
  lemma IncreasingAppend(a: seq<PageItem>, b: seq<PageItem>, m: int)
    requires Increasing(a) && Increasing(b)
    requires forall i :: 0 <= i < |a| && a[i].Num? ==> a[i].n < m
    requires forall i :: 0 <= i < |b| && b[i].Num? ==> m <= b[i].n
    ensures Increasing(a + b)
  {
    forall i, j | 0 <= i < j < |a + b| && (a + b)[i].Num? && (a + b)[j].Num?
      ensures (a + b)[i].n < (a + b)[j].n
    {
      if j < |a| {
      } else if i >= |a| {
        assert (a + b)[i] == b[i - |a|] && (a + b)[j] == b[j - |a|];
      } else {
        assert (a + b)[i] == a[i] && (a + b)[j] == b[j - |a|];
      }
    }
  }

  /** With at most five pages, the row is every page from 1 up. */
  lemma {:induction false} FewPagesAllShown(totalPages: int, currentPage: int)
    requires totalPages <= MAX_VISIBLE_PAGES
    ensures |PageNumbers(Some(totalPages), currentPage)| == Max(0, totalPages)
    ensures forall i :: 0 <= i < |PageNumbers(Some(totalPages), currentPage)| ==>
      PageNumbers(Some(totalPages), currentPage)[i] == Num(i + 1)
  {
    assert PageNumbers(Some(totalPages), currentPage) == Range(1, totalPages);
    RangeAt(1, totalPages);
  }

  /** Page numbers within `[lo, hi]`, when the rows joined keep to it. */
  lemma WithinAppend(a: seq<PageItem>, b: seq<PageItem>, lo: int, hi: int)
    requires Within(a, lo, hi) && Within(b, lo, hi)
    ensures Within(a + b, lo, hi)
  {
    forall i | 0 <= i < |a + b| && (a + b)[i].Num? ensures lo <= (a + b)[i].n <= hi {
      if i >= |a| {
        assert (a + b)[i] == b[i - |a|];
      }
    }
  }

  /** The central window shows `a` to `b`. */
  lemma RangeIncreasing(a: int, b: int)
    ensures Increasing(Range(a, b)) && Within(Range(a, b), a, b)
  {
    RangeAt(a, b);
  }

  /** Page numbers rise strictly and lie in `[1, totalPages]`; the central
      window of a long row holds at most `maxVisiblePages` pages, and the
      row never holds more than nine buttons. */
  lemma {:induction false} PageNumbersIncreasing(data: Option<int>, currentPage: int)
    ensures Increasing(PageNumbers(data, currentPage))
    ensures data.Some? ==> Within(PageNumbers(data, currentPage), 1, data.value)
    ensures data.Some? && data.value > MAX_VISIBLE_PAGES ==>
      |Range(StartPage(currentPage), EndPage(currentPage, data.value))| <= MAX_VISIBLE_PAGES
    ensures |PageNumbers(data, currentPage)| <= 9
  {
    if data.Some? && data.value > MAX_VISIBLE_PAGES {
      var totalPages := data.value;
      var start := StartPage(currentPage);
      var end := EndPage(currentPage, totalPages);
      var lead, window, trail := Lead(start), Range(start, end), Trail(end, totalPages);
      assert Within(lead, 1, 1) && Within(trail, totalPages, totalPages);
      RangeIncreasing(start, end);
      IncreasingAppend(lead, window, start);
      IncreasingAppend(lead + window, trail, Max(start, end + 1));
      WithinAppend(lead, window, 1, totalPages);
      WithinAppend(lead + window, trail, 1, totalPages);
      assert PageNumbers(data, currentPage) == lead + window + trail;
    } else if data.Some? {
      RangeIncreasing(1, data.value);
    }
  }

  /** As long as the current page is at most two past the last, a row of
      more than five pages starts at page 1, ends at the last page and
      shows the current page, and every gap bridges skipped pages. */
  lemma {:induction false} ManyPagesShape(totalPages: int, currentPage: int)
    requires totalPages > MAX_VISIBLE_PAGES && currentPage <= totalPages + 2
    ensures PageNumbers(Some(totalPages), currentPage)[0] == Num(1)
    ensures PageNumbers(Some(totalPages), currentPage)[|PageNumbers(Some(totalPages), currentPage)| - 1] == Num(totalPages)
    ensures GapsBridged(PageNumbers(Some(totalPages), currentPage))
    ensures 1 <= currentPage <= totalPages ==> Num(currentPage) in PageNumbers(Some(totalPages), currentPage)
  {
    var start := StartPage(currentPage);
    var end := EndPage(currentPage, totalPages);
    var lead, window, trail := Lead(start), Range(start, end), Trail(end, totalPages);
    var r := lead + window + trail;
    RangeAt(start, end);
    assert r == PageNumbers(Some(totalPages), currentPage);
    assert 1 <= start <= end <= totalPages;
    assert r[|lead|] == Num(start);
    assert r[|lead| + |window| - 1] == Num(end);
    if 1 <= currentPage <= totalPages {
      assert r[|lead| + currentPage - start] == Num(currentPage);
    }
    forall i | 0 <= i < |r| && r[i].Ellipsis?
      ensures 0 < i < |r| - 1 && r[i - 1].Num? && r[i + 1].Num? && r[i + 1].n - r[i - 1].n >= 2
    {
      if i < |lead| {
        assert i == 1 && r[0] == Num(1) && start > 2;
      } else {
        assert i == |lead| + |window| && r[i + 1] == Num(totalPages);
      }
    }
  }

  /** The row as written: a current page three or more past the last page
      (the search changed while a later page was open) leaves out every
      page but the first, and the row ends on a gap. */
  lemma StalePageLosesLastPage()
    ensures PageNumbers(Some(6), 9) == [Num(1), Ellipsis]
  {
    assert Range(7, 6) == [];
  }

  /** The row with the current page first brought back onto the listing. */
  function PageNumbersClamped(data: Option<int>, currentPage: int): seq<PageItem>
  {
    match data
    case None => []
    case Some(totalPages) => PageNumbers(data, Min(currentPage, totalPages))
  }

  /** With the clamp, a row of more than five pages starts at 1, ends at
      the last page and bridges its gaps whatever the current page. */
  lemma {:induction false} ClampedRowShape(totalPages: int, currentPage: int)
    requires totalPages > MAX_VISIBLE_PAGES
    ensures PageNumbersClamped(Some(totalPages), currentPage)[0] == Num(1)
    ensures PageNumbersClamped(Some(totalPages), currentPage)[|PageNumbersClamped(Some(totalPages), currentPage)| - 1] == Num(totalPages)
    ensures GapsBridged(PageNumbersClamped(Some(totalPages), currentPage))
  {
    ManyPagesShape(totalPages, Min(currentPage, totalPages));
  }

  /** The page state of the jobs route. */
  class Page {
    var currentPage: int
    var selectedJob: Option<string>
    var searchQuery: string
    var location: string
    var jobType: string

    /** The route opens on page 1 with no job selected; the search comes
        from the address bar, with missing parameters read as empty. */
    constructor (searchQuery: Option<string>, location: Option<string>, jobType: Option<string>)
      ensures currentPage == 1 && selectedJob == None
      ensures this.searchQuery == searchQuery.GetOr("")
      ensures this.location == location.GetOr("")
      ensures this.jobType == jobType.GetOr("")
    {
      currentPage := 1;
      selectedJob := None;
      this.searchQuery := searchQuery.GetOr("");
      this.location := location.GetOr("");
      this.jobType := jobType.GetOr("");
    }

    /** Submitting the search form replaces the search and drops the
        selection; the current page is kept. */
    method OnSubmit(searchQuery: string, location: string, jobType: string)
      modifies this
      ensures this.searchQuery == searchQuery && this.location == location && this.jobType == jobType
      ensures selectedJob == None && currentPage == old(currentPage)
    {
      this.searchQuery, this.location, this.jobType := searchQuery, location, jobType;
      selectedJob := None;
    }

    /** Clearing the search goes back to page 1 with an empty search and no
        selection. */
    method ResetSearch()
      modifies this
      ensures currentPage == 1 && selectedJob == None
      ensures searchQuery == "" && location == "" && jobType == ""
    {
      currentPage := 1;
      searchQuery, location, jobType := "", "", "";
      selectedJob := None;
    }

    method HandleJobSelect(jobId: string)
      modifies this
      ensures selectedJob == Some(jobId)
      ensures currentPage == old(currentPage) && searchQuery == old(searchQuery)
      ensures location == old(location) && jobType == old(jobType)
    {
      selectedJob := Some(jobId);
    }

    /** Going to a page drops the selection. */
    method HandlePageChange(page: int)
      modifies this
      ensures currentPage == page && selectedJob == None
      ensures searchQuery == old(searchQuery) && location == old(location) && jobType == old(jobType)
    {
      currentPage := page;
      selectedJob := None;
    }

    /** One page back, unless already on page 1. */
    method HandlePrevPage()
      modifies this
      ensures old(currentPage) > 1 ==> currentPage == old(currentPage) - 1 && selectedJob == None
      ensures old(currentPage) <= 1 ==> currentPage == old(currentPage) && selectedJob == old(selectedJob)
      ensures old(currentPage) >= 1 ==> currentPage >= 1
      ensures searchQuery == old(searchQuery) && location == old(location) && jobType == old(jobType)
    {
      if currentPage > 1 {
        HandlePageChange(currentPage - 1);
      }
    }

    /** One page on, unless the listing has not loaded or this is the last
        page. */
    method HandleNextPage(data: Option<int>)
      modifies this
      ensures data.Some? && old(currentPage) < data.value ==> currentPage == old(currentPage) + 1 && selectedJob == None
      ensures !(data.Some? && old(currentPage) < data.value) ==> currentPage == old(currentPage) && selectedJob == old(selectedJob)
      ensures data.Some? && old(currentPage) <= Max(1, data.value) ==> currentPage <= Max(1, data.value)
      ensures searchQuery == old(searchQuery) && location == old(location) && jobType == old(jobType)
    {
      if data.Some? && currentPage < data.value {
        HandlePageChange(currentPage + 1);
      }
    }

    /** Builds the page-button row by pushing buttons one at a time. */
    method GetPageNumbers(data: Option<int>) returns (pages: seq<PageItem>)
      ensures pages == PageNumbers(data, currentPage)
    {
      if data.None? {
        return [];
      }
      pages := [];
      var totalPages := data.value;
      if totalPages <= MAX_VISIBLE_PAGES {
        var i := 1;
        while i <= totalPages
          invariant 1 <= i <= Max(1, totalPages + 1)
          invariant pages == Range(1, i - 1)
        {
          RangeSnoc(1, i - 1);
          pages := pages + [Num(i)];
          i := i + 1;
        }
      } else {
        var startPage := Max(1, currentPage - 2);
        var endPage := Min(totalPages, startPage + MAX_VISIBLE_PAGES - 1);
        if startPage > 1 {
          pages := pages + [Num(1)];
          if startPage > 2 {
            pages := pages + [Ellipsis];
          }
        }
        ghost var lead := pages;
        assert lead == Lead(startPage);
        var i := startPage;
        while i <= endPage
          invariant startPage <= i <= Max(startPage, endPage + 1)
          invariant pages == lead + Range(startPage, i - 1)
        {
          RangeSnoc(startPage, i - 1);
          assert pages + [Num(i)] == lead + (Range(startPage, i - 1) + [Num(i)]);
          pages := pages + [Num(i)];
          i := i + 1;
        }
        assert pages == lead + Range(startPage, endPage);
        if endPage < totalPages {
          if endPage < totalPages - 1 {
            pages := pages + [Ellipsis];
          }
          pages := pages + [Num(totalPages)];
        }
        assert pages == Lead(startPage) + Range(startPage, endPage) + Trail(endPage, totalPages);
      }
    }
  }
}
