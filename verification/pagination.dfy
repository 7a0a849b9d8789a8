/**
 * `IdModel.paginate` and `IdModel.Page`: one page of a table read in id
 * order with OFFSET/LIMIT, the page count, and the neighbour-page numbers.
 */
module Pagination {
  import opened Wrappers
  import opened Json
  import opened Tables

  /** `IdModel.Page`. */
  datatype Page<T> = Page(
    items: seq<T>,
    pageCount: int,
    previousPage: Option<int>,
    nextPage: Option<int>,
    currentPage: int)

  /**
   * `ceil(count / per_page)`, computed on integers: the least number of pages
   * of `size` items that hold `count` items.
   */
  function CeilDiv(count: nat, size: int): (q: nat)
    requires size >= 1
    ensures q * size >= count
    ensures q > 0 ==> (q - 1) * size < count
    decreases count
  {
    if count == 0 then 0
    else if count <= size then 1
    else
      var q' := CeilDiv(count - size, size);
      assert (q' + 1) * size == q' * size + size;
      q' + 1
  }

  /** Multiplying by a positive page size keeps order. */
  lemma MulMonotone(a: int, b: int, size: int)
    requires a <= b && size >= 1
    ensures a * size <= b * size
  {
  }

  /** `OFFSET offset LIMIT limit` over an ordered result. */
  function Window<T>(t: seq<T>, offset: nat, limit: nat): (w: seq<T>)
    ensures |w| <= limit
    ensures offset >= |t| ==> w == []
    ensures offset < |t| ==> |w| == if offset + limit <= |t| then limit else |t| - offset
    ensures forall i :: 0 <= i < |w| ==> offset + i < |t| && w[i] == t[offset + i]
  {
    if offset >= |t| then []
    else if offset + limit <= |t| then t[offset..offset + limit]
    else t[offset..]
  }

  /** The number of rows skipped before page `page`. */
  function Offset(page: int, perPage: int): nat
    requires page >= 1 && perPage >= 1
  {
    (page - 1) * perPage
  }

  /**
   * `paginate(page, per_page)` over a table held in id order: the rows from
   * `(page - 1) * per_page` on, at most `per_page` of them, with the page
   * count taken from the whole table.
   */
  function Paginate<T>(t: seq<T>, page: int, perPage: int): (p: Page<T>)
    requires page >= 1 && perPage >= 1
    ensures p.currentPage == page
    ensures p.pageCount * perPage >= |t|
    ensures p.pageCount > 0 ==> (p.pageCount - 1) * perPage < |t|
    ensures |p.items| <= perPage
    ensures forall i :: 0 <= i < |p.items| ==>
              Offset(page, perPage) + i < |t| && p.items[i] == t[Offset(page, perPage) + i]
    ensures p.previousPage.Some? <==> page > 1
    ensures p.previousPage.Some? ==> p.previousPage.value == page - 1
    ensures p.nextPage.Some? <==> page < p.pageCount
    ensures p.nextPage.Some? ==> p.nextPage.value == page + 1
  {
    var items := Window(t, Offset(page, perPage), perPage);
    var pageCount := CeilDiv(|t|, perPage);
    Page(
      items,
      pageCount,
      if page > 1 then Some(page - 1) else None,
      if page < pageCount then Some(page + 1) else None,
      page)
  }

  /** An empty table has no pages, and then neither neighbour exists. */
  lemma EmptyTableHasNoPages<T>(t: seq<T>, page: int, perPage: int)
    requires page >= 1 && perPage >= 1 && |t| == 0
    ensures Paginate(t, page, perPage).pageCount == 0
    ensures Paginate(t, page, perPage).items == []
    ensures Paginate(t, page, perPage).nextPage.None?
  {
  }

  /**
   * A page is empty exactly when it lies beyond the last page; every page
   * before the last is full.
   */
  lemma {:induction false} EmptyExactlyBeyondLast<T>(t: seq<T>, page: int, perPage: int)
    requires page >= 1 && perPage >= 1
    ensures var p := Paginate(t, page, perPage);
      p.items == [] <==> page > p.pageCount
    ensures var p := Paginate(t, page, perPage);
      page < p.pageCount ==> |p.items| == perPage
  {
    var p := Paginate(t, page, perPage);
    var q := p.pageCount;
    if page > q {
      MulMonotone(q, page - 1, perPage);
    } else {
      MulMonotone(page - 1, q - 1, perPage);
    }
    if page < q {
      MulMonotone(page, q - 1, perPage);
    }
  }

  /**
   * The next-page number is present exactly when the following page has
   * items; the previous-page number exactly when there is a page before.
   */
  lemma NeighbourLinks<T>(t: seq<T>, page: int, perPage: int)
    requires page >= 1 && perPage >= 1
    ensures Paginate(t, page, perPage).nextPage.Some? <==>
            Paginate(t, page + 1, perPage).items != []
    ensures Paginate(t, page, perPage).previousPage.Some? <==> page - 1 >= 1
  {
    EmptyExactlyBeyondLast(t, page + 1, perPage);
  }

  /** The requested last page has no next page and, from page 2 on, a previous one. */
  lemma LastPage<T>(t: seq<T>, perPage: int)
    requires perPage >= 1 && |t| > 0
    ensures var last := CeilDiv(|t|, perPage);
      last >= 1 &&
      Paginate(t, last, perPage).nextPage.None? &&
      Paginate(t, last, perPage).items != [] &&
      (last > 1 ==> Paginate(t, last, perPage).previousPage == Some(last - 1))
  {
    EmptyExactlyBeyondLast(t, CeilDiv(|t|, perPage), perPage);
  }

  /** The items of pages 1 to `k`, one after the other. */
  function FirstPages<T>(t: seq<T>, perPage: int, k: nat): seq<T>
    requires perPage >= 1
  {
    if k == 0 then [] else FirstPages(t, perPage, k - 1) + Paginate(t, k, perPage).items
  }

  function Min(a: int, b: int): int { if a <= b then a else b }

  /** Reading pages 1 to `k` in turn reads the table's first `k * per_page` rows. */
  lemma {:induction false} FirstPagesArePrefix<T>(t: seq<T>, perPage: int, k: nat)
    requires perPage >= 1
    ensures k * perPage >= 0
    ensures FirstPages(t, perPage, k) == t[..Min(k * perPage, |t|)]
  {
    if k > 0 {
      FirstPagesArePrefix(t, perPage, k - 1);
      var before := Min((k - 1) * perPage, |t|);
      var after := Min(k * perPage, |t|);
      assert k * perPage == (k - 1) * perPage + perPage;
      var items := Paginate(t, k, perPage).items;
      if (k - 1) * perPage >= |t| {
        assert items == [];
        assert before == after;
      } else {
        assert items == t[before..after];
        assert t[..before] + t[before..after] == t[..after];
      }
    }
  }

  /** Pages 1 to `page_count` together hold the whole table, each row once, in order. */
  lemma PagesCoverTable<T>(t: seq<T>, perPage: int)
    requires perPage >= 1
    ensures FirstPages(t, perPage, CeilDiv(|t|, perPage)) == t
  {
    FirstPagesArePrefix(t, perPage, CeilDiv(|t|, perPage));
  }

  /**
   * On an id-ordered table every page is id-ordered, and every row of an
   * earlier page has a smaller id than every row of a later page.
   */
  lemma {:induction false} PagesInIdOrder<T>(t: seq<Row<T>>, perPage: int, a: int, b: int, i: int, j: int)
    requires IdOrdered(t) && perPage >= 1 && 1 <= a < b
    requires 0 <= i < |Paginate(t, a, perPage).items|
    requires 0 <= j < |Paginate(t, b, perPage).items|
    ensures Paginate(t, a, perPage).items[i].id < Paginate(t, b, perPage).items[j].id
  {
    MulMonotone(a, b - 1, perPage);
    assert a * perPage == (a - 1) * perPage + perPage;
    assert Offset(a, perPage) + i < Offset(b, perPage) + j;
  }

  /** Each item as the JSON provider serialises it. */
  function SerializeItems<T>(items: seq<T>, item: T -> Json): (js: seq<Json>)
    ensures |js| == |items|
    ensures forall i :: 0 <= i < |items| ==> js[i] == item(items[i])
  {
    seq(|items|, i requires 0 <= i < |items| => item(items[i]))
  }

  /** The page as `Page.serialize` returns it, items serialised one by one. */
  function SerializePage<T>(p: Page<T>, item: T -> Json): (j: Json)
    ensures j.JObject? && Keys(j.fields) ==
      ["items", "page_count", "next_page", "previous_page", "current_page"]
  {
    JObject([
      ("items", JArray(SerializeItems(p.items, item))),
      ("page_count", JInt(p.pageCount)),
      ("next_page", FromOption(p.nextPage)),
      ("previous_page", FromOption(p.previousPage)),
      ("current_page", JInt(p.currentPage))
    ])
  }

  /** A JSON `null` or integer read back as an optional page number. */
  function ReadOptionalInt(j: Json): Option<Option<int>> {
    match j
    case JNull => Some(None)
    case JInt(n) => Some(Some(n))
    case _ => None
  }

  /** What a client reads from a serialised page: the page, items left as JSON. */
  function ReadPage(j: Json): Option<Page<Json>> {
    var items := Field(j, "items");
    var count := Field(j, "page_count");
    var next := Field(j, "next_page");
    var prev := Field(j, "previous_page");
    var current := Field(j, "current_page");
    if && items.Some? && items.value.JArray?
       && count.Some? && count.value.JInt?
       && next.Some? && ReadOptionalInt(next.value).Some?
       && prev.Some? && ReadOptionalInt(prev.value).Some?
       && current.Some? && current.value.JInt?
    then
      Some(Page(items.value.elems, count.value.i, ReadOptionalInt(prev.value).value,
                ReadOptionalInt(next.value).value, current.value.i))
    else None
  }

  /** A JSON object with the five page fields reads back as that page. */
  lemma ReadPageFields(j: Json, items: seq<Json>, count: int, current: int,
                       next: Option<int>, prev: Option<int>)
    requires Field(j, "items") == Some(JArray(items))
    requires Field(j, "page_count") == Some(JInt(count))
    requires Field(j, "next_page") == Some(FromOption(next))
    requires Field(j, "previous_page") == Some(FromOption(prev))
    requires Field(j, "current_page") == Some(JInt(current))
    ensures ReadPage(j) == Some(Page(items, count, prev, next, current))
  {
    assert ReadOptionalInt(FromOption(next)) == Some(next);
    assert ReadOptionalInt(FromOption(prev)) == Some(prev);
  }

  /** Reading a serialised page back gives every field's value. */
  lemma SerializePageRoundTrip<T>(p: Page<T>, item: T -> Json)
    ensures ReadPage(SerializePage(p, item)) ==
      Some(Page(SerializeItems(p.items, item), p.pageCount, p.previousPage, p.nextPage, p.currentPage))
  {
    var j := SerializePage(p, item);
    var fs := j.fields;
    assert DistinctKeys(fs);
    GetAt(fs, 0);
    GetAt(fs, 1);
    GetAt(fs, 2);
    GetAt(fs, 3);
    GetAt(fs, 4);
    assert Field(j, "items") == Some(JArray(SerializeItems(p.items, item)));
    assert Field(j, "page_count") == Some(JInt(p.pageCount));
    assert Field(j, "next_page") == Some(FromOption(p.nextPage));
    assert Field(j, "previous_page") == Some(FromOption(p.previousPage));
    assert Field(j, "current_page") == Some(JInt(p.currentPage));
    ReadPageFields(j, SerializeItems(p.items, item), p.pageCount, p.currentPage,
                   p.nextPage, p.previousPage);
  }

  /**
   * 25 rows, 12 per page: page 1 holds the first 12 and points to page 2;
   * page 3 holds only the 25th row and points back to page 2.
   */
  lemma TwentyFiveRowsByTwelve<T>(t: seq<T>)
    requires |t| == 25
    ensures Paginate(t, 1, 12) == Page(t[..12], 3, None, Some(2), 1)
    ensures Paginate(t, 3, 12) == Page([t[24]], 3, Some(2), None, 3)
  {
    assert CeilDiv(25, 12) == 3;
  }
}
