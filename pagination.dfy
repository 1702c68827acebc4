/** The responses a handler can send, and the paginated `list` operation
    that the three controllers implement identically over their collection. */
module Http {
  /** OK with a body, 400 Bad Request or 404 Not Found. */
  datatype Response<T> = Ok(body: T) | BadRequest | NotFound

  /** A query parameter after `parseInt`: missing or empty (falsy), not a
      number, or an integer. */
  datatype Query = Absent | NaN | Num(n: int)
}

module Pagination {
  import opened Js
  import opened Http

  datatype Page<T> = Page(page: int, perPage: int, total: nat, data: seq<T>)

  const DefaultPage := 1
  const DefaultPerPage := 10

  /** `page` after parsing; `None` stands for NaN. */
  function PageValue(q: Query): (r: Option<int>)
    ensures r.None? <==> q.NaN?
    ensures q.Absent? ==> r == Some(1)
    ensures q.Num? && q.n != 0 ==> r == Some(q.n)
    ensures q.Num? && q.n == 0 ==> r == Some(1)
    ensures r.Some? ==> r.value != 0
  {
    match q
    case Absent => Some(DefaultPage)
    case NaN => None
    case Num(n) => Some(if n == 0 then 1 else n)
  }

  /** `per_page` after parsing; `None` stands for NaN. */
  function PerPageValue(q: Query): (r: Option<int>)
    ensures r.None? <==> q.NaN?
    ensures q.Absent? ==> r == Some(10)
    ensures q.Num? ==> r == Some(q.n)
  {
    match q
    case Absent => Some(DefaultPerPage)
    case NaN => None
    case Num(n) => Some(n)
  }

  /** A run of consecutive elements of coll, in collection order. */
  ghost predicate IsWindow<T>(data: seq<T>, coll: seq<T>)
  {
    exists i, j :: 0 <= i <= j <= |coll| && data == coll[i..j]
  }

  /** `coll.slice(skip).slice(0, perPage)`. */
  function Window<T>(coll: seq<T>, skip: int, perPage: int): (data: seq<T>)
    ensures IsWindow(data, coll)
    ensures skip >= 0 && perPage >= 0 ==> data == coll[Min(skip, |coll|)..Min(skip + perPage, |coll|)]
  {
    var rest := Slice(coll, skip, |coll|);
    var data := Slice(rest, 0, perPage);
    var from := Resolve(skip, |coll|);
    assert rest == coll[from..];
    assert data == coll[from..from + |data|];
    data
  }

  /** `skipItems`: how many items precede the requested page. */
  function Skip(page: int, perPage: int): (skip: int)
    ensures page >= 1 && perPage >= 0 ==> skip >= 0
  {
    (page - 1) * perPage
  }

  /** `list`: absent parameters default to page 1 and 10 per page, a page of
      0 is read as 1, a parameter that is not a number gives Bad Request, and
      otherwise the data are `coll.slice((page-1)*per_page).slice(0, per_page)`
      with the total size of the collection. */
  function List<T>(coll: seq<T>, page: Query, perPage: Query): (r: Response<Page<T>>)
    ensures !r.NotFound?
    ensures r.BadRequest? <==> page.NaN? || perPage.NaN?
    ensures r.Ok? ==> r.body.total == |coll| && IsWindow(r.body.data, coll)
    ensures r.Ok? ==> r.body.page == (if page.Num? && page.n != 0 then page.n else 1)
    ensures r.Ok? ==> r.body.perPage == (if perPage.Num? then perPage.n else 10)
    ensures r.Ok? && r.body.page >= 1 && r.body.perPage >= 0 ==>
      var skip := Skip(r.body.page, r.body.perPage);
      r.body.data == coll[Min(skip, |coll|)..Min(skip + r.body.perPage, |coll|)]
  {
    var p, pp := PageValue(page), PerPageValue(perPage);
    if p.None? || pp.None? then BadRequest
    else
      var data := Window(coll, Skip(p.value, pp.value), pp.value);
      Ok(Page(p.value, pp.value, |coll|, data))
  }

  /** For page >= 1 and per_page >= 0 the window holds
      min(per_page, max(0, total - (page-1)*per_page)) items. */
  lemma WindowLength<T>(coll: seq<T>, page: int, perPage: int)
    requires page >= 1 && perPage >= 0
    ensures List(coll, Num(page), Num(perPage)).Ok?
    ensures |List(coll, Num(page), Num(perPage)).body.data|
         == Min(perPage, Max(0, |coll| - Skip(page, perPage)))
  {
    var skip := Skip(page, perPage);
    var data := List(coll, Num(page), Num(perPage)).body.data;
    assert data == coll[Min(skip, |coll|)..Min(skip + perPage, |coll|)];
  }

  /** Position k lies on page k / per_page + 1, at offset k % per_page. */
  lemma PageOfPosition(k: nat, perPage: int)
    requires perPage >= 1
    ensures Skip(k / perPage + 1, perPage) + k % perPage == k
    ensures 0 <= k % perPage < perPage
  {
  }

  /** For page >= 1 and per_page >= 0, `list` answers with the window that
      starts after Skip(page, per_page) items. */
  lemma ListOfValidPage<T>(coll: seq<T>, page: int, perPage: int)
    requires page >= 1 && perPage >= 0
    ensures List(coll, Num(page), Num(perPage)) == Ok(Page(page, perPage, |coll|, Window(coll, Skip(page, perPage), perPage)))
  {
  }

  /** Item j of a window is item skip + j of the collection. */
  lemma WindowItem<T>(coll: seq<T>, skip: int, perPage: int, j: int)
    requires 0 <= skip && 0 <= j < perPage && skip + j < |coll|
    ensures j < |Window(coll, skip, perPage)| && Window(coll, skip, perPage)[j] == coll[skip + j]
  {
  }

  /** Every element is served: with per_page >= 1, the element at position k
      is item k % per_page of page k / per_page + 1. */
  lemma ItemOnItsPage<T>(coll: seq<T>, perPage: int, k: int)
    requires perPage >= 1 && 0 <= k < |coll|
    ensures var r := List(coll, Num(k / perPage + 1), Num(perPage));
      r.Ok? && k % perPage < |r.body.data| && r.body.data[k % perPage] == coll[k]
  {
    var page := k / perPage + 1;
    PageOfPosition(k, perPage);
    ListOfValidPage(coll, page, perPage);
    WindowItem(coll, Skip(page, perPage), perPage, k % perPage);
  }
}
