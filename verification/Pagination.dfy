/** Page arithmetic of list queries, over the full ordered result. */
module Pagination {
  import opened Store

  datatype Page<T> = Page(
    items: seq<T>,
    total: nat,
    page: int,
    perPage: nat,
    totalPages: nat,
    hasMore: bool)

  /** `OFFSET o LIMIT l` over the ordered rows. */
  function Window<T>(rows: seq<T>, o: nat, l: nat): seq<T> {
    if o >= |rows| then []
    else if o + l >= |rows| then rows[o..]
    else rows[o..o + l]
  }

  function Min(a: nat, b: nat): nat { if a <= b then a else b }

  function TotalPages(total: nat, perPage: nat): nat
    requires perPage >= 1
  {
    var pages := (total + perPage - 1) / perPage;
    if pages < 1 then 1 else pages
  }

  function PageOffset(page: int, perPage: nat): nat {
    if page <= 1 then 0 else (page - 1) * perPage
  }

  /** What the query returns: the offset is clamped to the row count, and one row more than the page
      is fetched to see whether there is another page. */
  function Fetched<T>(rows: seq<T>, wanted: nat, perPage: nat): seq<T> {
    Window(rows, Min(wanted, |rows|), perPage + 1)
  }

  function Shown<T>(fetched: seq<T>, perPage: nat): seq<T> {
    fetched[..Min(perPage, |fetched|)]
  }

  /** One page; an explicit offset wins over the page number. */
  function Paginate<T>(rows: seq<T>, page: int, perPage: nat, offset: Option<nat>): Page<T>
    requires perPage >= 1
  {
    var fetched := Fetched(rows, if offset.Some? then offset.value else PageOffset(page, perPage), perPage);
    Page(Shown(fetched, perPage), |rows|, page, perPage, TotalPages(|rows|, perPage), |fetched| > perPage)
  }

  /** The clamp never changes what is fetched. */
  lemma ClampIsInvisible<T>(rows: seq<T>, o: nat, l: nat)
    ensures Window(rows, Min(o, |rows|), l) == Window(rows, o, l)
  {
  }

  /** `page < totalPages` says that rows are left after `page` full pages. */
  lemma PagesLeft(total: nat, perPage: nat, page: nat)
    requires perPage >= 1 && page >= 1
    ensures page < TotalPages(total, perPage) <==> page * perPage < total
  {
    var pages := (total + perPage - 1) / perPage;
    assert pages * perPage <= total + perPage - 1 < pages * perPage + perPage;
    if page < pages {
      Monotone(page + 1, pages, perPage);
      assert (page + 1) * perPage == page * perPage + perPage;
    } else {
      Monotone(pages, page, perPage);
    }
  }

  lemma {:induction false} Monotone(a: nat, b: nat, n: nat)
    requires a <= b
    ensures a * n <= b * n
  {
  }

  lemma FetchedSlice<T>(rows: seq<T>, o: nat, perPage: nat)
    requires perPage >= 1
    ensures Shown(Fetched(rows, o, perPage), perPage) == rows[Min(o, |rows|)..Min(o + perPage, |rows|)]
    ensures |Fetched(rows, o, perPage)| > perPage <==> o + perPage < |rows|
  {
  }

  lemma NextPageStarts(page: nat, perPage: nat)
    requires page >= 1
    ensures page * perPage == (page - 1) * perPage + perPage
  {
  }

  /** A page is the slice its number names, and it has a successor exactly when it is not the last. */
  lemma PageContents<T>(rows: seq<T>, page: nat, perPage: nat)
    requires perPage >= 1 && page >= 1
    ensures var p := Paginate(rows, page, perPage, None);
            && p.items == rows[Min((page - 1) * perPage, |rows|)..Min(page * perPage, |rows|)]
            && (p.hasMore <==> page < p.totalPages)
  {
    NextPageStarts(page, perPage);
    Monotone(0, page - 1, perPage);
    var o: nat := (page - 1) * perPage;
    assert PageOffset(page, perPage) == o;
    FetchedSlice(rows, o, perPage);
    PagesLeft(|rows|, perPage, page);
  }

  /** A page with an explicit offset is the slice that starts there, whatever page number comes with
      it, and has more exactly when rows are left behind it. */
  lemma OffsetContents<T>(rows: seq<T>, page: int, perPage: nat, o: nat)
    requires perPage >= 1
    ensures var p := Paginate(rows, page, perPage, Some(o));
            && p.items == rows[Min(o, |rows|)..Min(o + perPage, |rows|)]
            && (p.hasMore <==> o + perPage < |rows|)
  {
    FetchedSlice(rows, o, perPage);
  }

  /** The other fields of a page: they repeat the request and count the rows, and the page count is the
      least one, at least one, that has room for all rows. A page below the first is the first. */
  lemma PageFields<T>(rows: seq<T>, page: int, perPage: nat, offset: Option<nat>)
    requires perPage >= 1
    ensures var p := Paginate(rows, page, perPage, offset);
            && p.total == |rows| && p.page == page && p.perPage == perPage
            && p.totalPages >= 1 && |rows| <= p.totalPages * perPage
            && (p.totalPages > 1 ==> (p.totalPages - 1) * perPage < |rows|)
            && |p.items| <= perPage
            && (offset.None? && page < 1 ==> p.items == Paginate(rows, 1, perPage, None).items)
  {
    var n := TotalPages(|rows|, perPage);
    PagesLeft(|rows|, perPage, n);
    if n > 1 {
      PagesLeft(|rows|, perPage, n - 1);
    }
  }

  function FirstPages<T>(rows: seq<T>, n: nat, perPage: nat): seq<T>
    requires perPage >= 1
  {
    if n == 0 then [] else FirstPages(rows, n - 1, perPage) + Paginate(rows, n, perPage, None).items
  }

  lemma Joined<T>(rows: seq<T>, a: nat, b: nat)
    requires a <= b
    ensures rows[..Min(a, |rows|)] + rows[Min(a, |rows|)..Min(b, |rows|)] == rows[..Min(b, |rows|)]
  {
  }

  lemma {:induction false} FirstPagesArePrefix<T>(rows: seq<T>, n: nat, perPage: nat)
    requires perPage >= 1
    ensures FirstPages(rows, n, perPage) == rows[..Min(n * perPage, |rows|)]
  {
    if n > 0 {
      FirstPagesArePrefix(rows, n - 1, perPage);
      PageContents(rows, n, perPage);
      Monotone(n - 1, n, perPage);
      Joined(rows, (n - 1) * perPage, n * perPage);
    }
  }

  /** Pages one to the last make up the whole list, in order, without gap or overlap. */
  lemma PagesMakeTheList<T>(rows: seq<T>, perPage: nat)
    requires perPage >= 1
    ensures FirstPages(rows, TotalPages(|rows|, perPage), perPage) == rows
  {
    var n := TotalPages(|rows|, perPage);
    FirstPagesArePrefix(rows, n, perPage);
    PagesLeft(|rows|, perPage, n);
  }

  /** What "load more" appends from offset `o` on, page after page, while there is more. */
  function Continued<T>(rows: seq<T>, o: nat, perPage: nat): seq<T>
    requires perPage >= 1
    decreases |rows| - o
  {
    var fetched := Fetched(rows, o, perPage);
    Shown(fetched, perPage) + if |fetched| > perPage then Continued(rows, o + perPage, perPage) else []
  }

  lemma RestJoined<T>(rows: seq<T>, o: nat, n: nat, rest: seq<T>)
    requires rest == if o + n < |rows| then rows[o + n..] else []
    ensures rows[Min(o, |rows|)..Min(o + n, |rows|)] + rest == rows[Min(o, |rows|)..]
  {
  }

  lemma {:induction false} ContinuedIsRest<T>(rows: seq<T>, o: nat, perPage: nat)
    requires perPage >= 1
    ensures Continued(rows, o, perPage) == rows[Min(o, |rows|)..]
    decreases |rows| - o
  {
    var fetched := Fetched(rows, o, perPage);
    FetchedSlice(rows, o, perPage);
    var rest := if |fetched| > perPage then Continued(rows, o + perPage, perPage) else [];
    if |fetched| > perPage {
      ContinuedIsRest(rows, o + perPage, perPage);
    }
    RestJoined(rows, o, perPage, rest);
    assert Continued(rows, o, perPage) == Shown(fetched, perPage) + rest;
  }

  /** A history shown as a preview and continued from there in pages of another size comes out as
      the whole list, in order, without gap or overlap. */
  lemma PreviewContinues<T>(rows: seq<T>, preview: nat, perPage: nat)
    requires perPage >= 1
    ensures rows[..Min(preview, |rows|)] + Continued(rows, preview, perPage) == rows
  {
    ContinuedIsRest(rows, preview, perPage);
  }

  /** The two ways the MCP tools compute `has_more` agree for every window. */
  lemma HasMoreFormulasAgree<T>(rows: seq<T>, offset: nat, limit: nat)
    requires limit >= 1
    ensures var fetched := Window(rows, offset, limit + 1);
            var items := fetched[..Min(limit, |fetched|)];
            offset + |items| < |rows| <==> |fetched| > limit
  {
  }
}
