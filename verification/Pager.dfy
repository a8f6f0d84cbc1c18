/** The pod list pager: searching, moving forward and moving back over a stable store. */
module Pager {
  import opened Wrapping

  type Pod = string   // a pod, as far as paging is concerned

  const PAGE_SIZE_ALL := 0
  const DEFAULT_LIMIT := 10

  /** The repository's answer: LIMIT and OFFSET over the rows that match. */
  function ListPods(rows: seq<Pod>, pageSize: int, offset: nat): (r: seq<Pod>)
    ensures pageSize > 0 ==> |r| <= pageSize
  {
    var limit := if pageSize <= 0 then DEFAULT_LIMIT else pageSize;
    if offset >= |rows| then []
    else if offset + limit <= |rows| then rows[offset..offset + limit]
    else rows[offset..]
  }

  /** Number of pages of `size` rows that n rows fill. */
  function Pages(n: nat, size: nat): nat
    requires size > 0
  {
    Row(n, size) + if Col(n, size) == 0 then 0 else 1
  }

  // ---- The handler on values, for a fixed page size ----

  /** What is displayed: rows start .. offset. */
  datatype View = View(start: nat, offset: nat, result: seq<Pod>, hasPre: bool, hasNext: bool)

  function Fetch(rows: seq<Pod>, size: nat, start: nat): View
    requires size > 0
  {
    var data := ListPods(rows, size, start);
    var offset := start + |data|;
    View(start, offset, data, Pages(offset, size) > 1, Pages(offset, size) < Pages(|rows|, size))
  }

  function Next(rows: seq<Pod>, size: nat, v: View): View
    requires size > 0
  {
    if v.hasNext then Fetch(rows, size, v.offset) else v
  }

  function Previous(rows: seq<Pod>, size: nat, v: View): View
    requires size > 0
  {
    if v.hasPre then Fetch(rows, size, if v.offset >= 2 * size then v.offset - 2 * size else 0) else v
  }

  // ---- The handler ----

  class UserSelectHandler {
    var searchKey: string
    var hasPre: bool
    var hasNext: bool
    var currentResult: seq<Pod>
    var pageSize: int
    var totalCount: int
    var currentOffset: nat
    var totalPage: int
    var currentPage: int
    const store: string -> seq<Pod>   // the rows that match a search
    ghost var start: nat               // where the current page starts

    /** The fields show the page that `Fetch` gives. */
    ghost predicate Shows(v: View)
      reads this
    {
      start == v.start && currentOffset == v.offset && currentResult == v.result && hasPre == v.hasPre && hasNext == v.hasNext
    }

    constructor (rows: string -> seq<Pod>)
      ensures store == rows && !hasPre && !hasNext && currentResult == []
    {
      store := rows;
      searchKey, hasPre, hasNext, currentResult := "", false, false, [];
      pageSize, totalCount, currentOffset, totalPage, currentPage := 0, 0, 0, 0, 0;
      start := 0;
    }

    /** update */
    method UpdatePages()
      requires totalCount >= 0
      modifies this`totalPage, this`currentPage
      ensures if pageSize <= 0 then totalPage == 1 && currentPage == 1
              else totalPage == Pages(totalCount, pageSize) && currentPage == Pages(currentOffset, pageSize)
    {
      if pageSize <= 0 {
        totalPage := 1;
        currentPage := 1;
        return;
      }
      RowColIsDivMod(totalCount, pageSize);
      RowColIsDivMod(currentOffset, pageSize);
      if totalCount % pageSize == 0 {
        totalPage := totalCount / pageSize;
      } else {
        totalPage := totalCount / pageSize + 1;
      }
      if currentOffset % pageSize == 0 {
        currentPage := currentOffset / pageSize;
      } else {
        currentPage := currentOffset / pageSize + 1;
      }
    }

    method UpdatePageInfo(size: int, total: nat, offset: nat)
      modifies this`pageSize, this`totalCount, this`currentOffset, this`totalPage, this`currentPage
      ensures pageSize == size && totalCount == total && currentOffset == offset
      ensures if size <= 0 then totalPage == 1 && currentPage == 1
              else totalPage == Pages(total, size) && currentPage == Pages(offset, size)
    {
      pageSize := size;
      totalCount := total;
      currentOffset := offset;
      UpdatePages();
    }

    /** updateRemotePageData, for every page size the configuration can give. */
    method UpdateRemotePageData(size: int, offset: nat, total: nat, rows: seq<Pod>) returns (data: seq<Pod>)
      modifies this`pageSize, this`totalCount, this`currentOffset, this`totalPage, this`currentPage, this`hasPre, this`hasNext
      ensures var pages := if size <= PAGE_SIZE_ALL then |rows| else size;
              && data == (if |rows| > pages then rows[..pages] else rows)
              && currentOffset == offset + |data| && totalCount == total
              && pageSize == (if |data| < pages then |data| else pages)
              && hasPre == (pages > 0 && Pages(currentOffset, pages) > 1)
              && hasNext == (pages > 0 && Pages(currentOffset, pages) < Pages(total, pages))
    {
      hasNext, hasPre := false, false;
      var currentPageSize := size;
      data := rows;
      if currentPageSize < 0 || currentPageSize == PAGE_SIZE_ALL {
        currentPageSize := |rows|;
      }
      if |rows| > currentPageSize {
        data := data[..currentPageSize];
      }
      UpdatePageInfo(currentPageSize, total, offset + |data|);
      if currentPage > 1 {
        hasPre := true;
      }
      if currentPage < totalPage {
        hasNext := true;
      }
      if |data| < currentPageSize {
        pageSize := |data|;
      }
    }

    method Retrieve(size: nat, offset: nat, search: string) returns (data: seq<Pod>)
      requires size > 0
      modifies this`pageSize, this`totalCount, this`currentOffset, this`totalPage, this`currentPage, this`hasPre, this`hasNext,
               this`start
      ensures var v := Fetch(store(search), size, offset);
              data == v.result && start == offset && currentOffset == v.offset && hasPre == v.hasPre && hasNext == v.hasNext
    {
      hide Pages;
      var rows := store(search);
      data := UpdateRemotePageData(size, offset, |rows|, ListPods(rows, size, offset));
      start := offset;
    }

    method Search(size: nat, key: string)
      requires size > 0
      modifies this
      ensures searchKey == key && Shows(Fetch(store(key), size, 0))
    {
      currentResult := Retrieve(size, 0, key);
      searchKey := key;
    }

    method MoveNextPage(size: nat, ghost v: View)
      requires size > 0 && Shows(v)
      modifies this
      ensures searchKey == old(searchKey) && Shows(Next(store(searchKey), size, v))
    {
      hide Pages, ListPods;
      if hasNext {
        currentResult := Retrieve(size, currentOffset, searchKey);
      }
    }

    method MovePrePage(size: nat, ghost v: View)
      requires size > 0 && Shows(v)
      modifies this
      ensures searchKey == old(searchKey) && Shows(Previous(store(searchKey), size, v))
    {
      hide Pages, ListPods;
      if hasPre {
        var from: int := currentOffset - size * 2;
        if from <= 0 {
          from := 0;
        }
        currentResult := Retrieve(size, from, searchKey);
      }
    }
  }

  // ---- Where paging can get ----

  /** A page of the store whose end lies a whole number of pages from the beginning or from the end. */
  predicate PageOk(rows: seq<Pod>, size: nat, v: View)
    requires size > 0
  {
    && v == Fetch(rows, size, v.start)
    && v.start <= v.offset <= |rows|
    && (v.start < v.offset || rows == [])
    && (Col(v.offset, size) == 0 || Col(v.offset, size) == Col(|rows|, size))
  }

  lemma FetchOk(rows: seq<Pod>, size: nat, start: nat)
    requires size > 0 && (start < |rows| || start == 0)
    requires Col(start, size) == 0 || Col(start, size) == Col(|rows|, size)
    ensures PageOk(rows, size, Fetch(rows, size, start))
    ensures var v := Fetch(rows, size, start);
            v.offset == (if start + size <= |rows| then start + size else |rows|) && v.result == rows[start..v.offset]
  {
    hide Row, Col, Pages;
    RowColZero(size);
    ColStep(start, size);
  }

  lemma ColStep(n: nat, size: nat)
    requires size > 0
    ensures Col(n + size, size) == Col(n, size) && Row(n + size, size) == Row(n, size) + 1
    ensures n >= size ==> Col(n - size, size) == Col(n, size) && Row(n - size, size) + 1 == Row(n, size)
  {
  }

  /** There is a next page exactly when rows are left, and a previous one exactly after the first page's rows. */
  lemma HasNextExact(rows: seq<Pod>, size: nat, v: View)
    requires size > 0 && PageOk(rows, size, v)
    ensures v.hasNext <==> v.offset < |rows|
    ensures v.hasPre <==> v.offset > size
  {
    hide Row, Col;
    RowMonotone(v.offset, |rows|, size);
    if v.offset < |rows| && Row(v.offset, size) == Row(|rows|, size) && Col(v.offset, size) == Col(|rows|, size) {
      RowColInjective(v.offset, |rows|, size);
    }
    MoreThanOnePage(v.offset, size);
  }

  /** So many pages hold n rows, and one fewer does not. */
  lemma PagesHold(n: nat, size: nat)
    requires size > 0
    ensures n <= size * Pages(n, size) < n + size
  {
    hide Row, Col;
    RowColSplit(n, size);
    assert size * (Row(n, size) + 1) == size * Row(n, size) + size;
  }

  lemma MoreThanOnePage(n: nat, size: nat)
    requires size > 0
    ensures Pages(n, size) > 1 <==> n > size
  {
    if n >= size {
      assert Row(n, size) == 1 + Row(n - size, size) && Col(n, size) == Col(n - size, size);
      if n - size < size {
        assert Row(n - size, size) == 0 && Col(n - size, size) == n - size;
      }
    }
  }

  /** Searching, moving forward and moving back never leave the pages described by PageOk. */
  lemma PagingStaysOk(rows: seq<Pod>, size: nat, v: View)
    requires size > 0 && PageOk(rows, size, v)
    ensures PageOk(rows, size, Fetch(rows, size, 0))
    ensures PageOk(rows, size, Next(rows, size, v))
    ensures PageOk(rows, size, Previous(rows, size, v))
  {
    hide Row, Fetch, Pages;
    HasNextExact(rows, size, v);
    RowColZero(size);
    FetchOk(rows, size, 0);
    if v.hasNext {
      FetchOk(rows, size, v.offset);
    }
    if v.hasPre {
      if v.offset >= 2 * size {
        ColStep(v.offset, size);
        ColStep(v.offset - size, size);
        FetchOk(rows, size, v.offset - 2 * size);
      }
    }
  }

  datatype Move = Forward | Back

  function Moves(rows: seq<Pod>, size: nat, v: View, ms: seq<Move>): View
    requires size > 0
    decreases |ms|
  {
    if ms == [] then v
    else Moves(rows, size, if ms[0] == Forward then Next(rows, size, v) else Previous(rows, size, v), ms[1..])
  }

  /** After a search and any moves: the page is a page of the store, and the two flags tell exactly what is left. */
  lemma {:induction false} EveryPageOk(rows: seq<Pod>, size: nat, v: View, ms: seq<Move>)
    requires size > 0 && PageOk(rows, size, v)
    ensures var r := Moves(rows, size, v, ms);
            && PageOk(rows, size, r)
            && (r.hasNext <==> r.offset < |rows|)
            && (r.hasPre <==> r.offset > size)
    decreases |ms|
  {
    hide PageOk, Next, Previous;
    if ms == [] {
      HasNextExact(rows, size, v);
    } else {
      PagingStaysOk(rows, size, v);
      EveryPageOk(rows, size, if ms[0] == Forward then Next(rows, size, v) else Previous(rows, size, v), ms[1..]);
    }
  }

  // ---- Walking through everything ----

  /** The rows shown by moving on for as long as there is a next page. */
  function Tour(rows: seq<Pod>, size: nat, v: View): seq<Pod>
    requires size > 0
    requires PageOk(rows, size, v)
    decreases |rows| - v.offset
  {
    PagingStaysOk(rows, size, v);
    HasNextExact(rows, size, v);
    v.result + if v.hasNext then Tour(rows, size, Next(rows, size, v)) else []
  }

  lemma {:induction false} TourShowsRest(rows: seq<Pod>, size: nat, v: View)
    requires size > 0 && PageOk(rows, size, v)
    ensures Tour(rows, size, v) == rows[v.start..]
    decreases |rows| - v.offset
  {
    hide Row, Col, Pages, Previous;
    HasNextExact(rows, size, v);
    PagingStaysOk(rows, size, v);
    assert v.result == rows[v.start..v.offset];
    if v.hasNext {
      TourShowsRest(rows, size, Next(rows, size, v));
      assert rows[v.start..v.offset] + rows[v.offset..] == rows[v.start..];
    }
  }

  /** Moving on from a search shows every matching row, in order and once, and then stops. */
  lemma SearchShowsEverything(rows: seq<Pod>, size: nat)
    requires size > 0
    ensures PageOk(rows, size, Fetch(rows, size, 0))
    ensures Tour(rows, size, Fetch(rows, size, 0)) == rows
  {
    hide Row, Pages;
    RowColZero(size);
    FetchOk(rows, size, 0);
    TourShowsRest(rows, size, Fetch(rows, size, 0));
    assert rows[0..] == rows;
  }

  /** A page that has a next one is always full. */
  lemma PageBeforeNextIsFull(rows: seq<Pod>, size: nat, v: View)
    requires size > 0 && PageOk(rows, size, v) && v.hasNext
    ensures v.offset == v.start + size && |v.result| == size
  {
    hide Row, Col, Pages;
    HasNextExact(rows, size, v);
  }

  /**
   Moving back after moving forward restores the page exactly when the page moved to is full, or the page
   moved from was the first one.
   */
  lemma BackAfterForward(rows: seq<Pod>, size: nat, v: View)
    requires size > 0 && PageOk(rows, size, v) && v.hasNext
    ensures var n := Next(rows, size, v);
            Previous(rows, size, n) == v <==> |n.result| == size || v.start == 0
  {
    hide Row, Pages;
    HasNextExact(rows, size, v);
    PageBeforeNextIsFull(rows, size, v);
    FetchOk(rows, size, v.offset);
    PagingStaysOk(rows, size, v);
    HasNextExact(rows, size, Next(rows, size, v));
  }

  /** Five rows in pages of two: back from the short last page is a page that begins one row too early. */
  lemma ShortLastPage(rows: seq<Pod>)
    requires |rows| == 5
    ensures var second := Next(rows, 2, Fetch(rows, 2, 0));
            var third := Next(rows, 2, second);
            && second.result == rows[2..4] && third.result == rows[4..5]
            && Previous(rows, 2, third).result == rows[1..3]
  {
    assert Pages(2, 2) == 1 && Pages(4, 2) == 2 && Pages(5, 2) == 3;
    assert rows[4..] == rows[4..5];
  }
}
