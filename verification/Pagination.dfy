/** Page parameters and page counts. */
module Pagination {
  import opened Results

  const DEFAULT_PAGE := 1
  const DEFAULT_PER_PAGE := 20
  const MAX_PER_PAGE := 100

  datatype Params = Params(page: int, perPage: int) {
    function Offset(): int {
      (page - 1) * perPage
    }

    function Limit(): int {
      perPage
    }
  }

  datatype PageResult<T> = PageResult(data: seq<T>, page: int, perPage: int, totalCount: nat, totalPages: nat)

  /** `FromRequest`, with None for a query parameter that is absent or not a number. */
  method FromRequest(pageArg: Option<int>, perPageArg: Option<int>) returns (p: Params)
    ensures p.page >= 1 && 1 <= p.perPage <= 100
    ensures pageArg.Some? && pageArg.value >= 1 ==> p.page == pageArg.value
    ensures pageArg.None? || pageArg.value < 1 ==> p.page == 1
    ensures perPageArg.Some? && perPageArg.value >= 1 ==>
          p.perPage == if perPageArg.value <= 100 then perPageArg.value else 100
    ensures perPageArg.None? || perPageArg.value < 1 ==> p.perPage == 20
  {
    var page := if pageArg.Some? then pageArg.value else DEFAULT_PAGE;
    var perPage := if perPageArg.Some? then perPageArg.value else DEFAULT_PER_PAGE;
    if page < 1 {
      page := DEFAULT_PAGE;
    }
    if perPage < 1 {
      perPage := DEFAULT_PER_PAGE;
    }
    if perPage > MAX_PER_PAGE {
      perPage := MAX_PER_PAGE;
    }
    p := Params(page, perPage);
  }

  /** The number of pages is the least one whose pages hold everything. */
  method NewResult<T>(data: seq<T>, p: Params, totalCount: nat) returns (r: PageResult<T>)
    requires p.perPage > 0
    ensures r == PageResult(data, p.page, p.perPage, totalCount, TotalPages(totalCount, p.perPage))
    ensures r.totalPages * p.perPage >= totalCount
    ensures forall n: nat :: n < r.totalPages ==> n * p.perPage < totalCount
  {
    var totalPages := totalCount / p.perPage;
    if totalCount % p.perPage != 0 {
      totalPages := totalPages + 1;
    }
    TotalPagesLeast(totalCount, p.perPage);
    r := PageResult(data, p.page, p.perPage, totalCount, totalPages);
  }

  function TotalPages(total: nat, perPage: int): nat
    requires perPage > 0
  {
    total / perPage + (if total % perPage != 0 then 1 else 0)
  }

  lemma TotalPagesLeast(total: nat, perPage: int)
    requires perPage > 0
    ensures TotalPages(total, perPage) * perPage >= total
    ensures forall n: nat :: n < TotalPages(total, perPage) ==> n * perPage < total
  {
    var q := total / perPage;
    assert total == q * perPage + total % perPage;
    assert (q + 1) * perPage == q * perPage + perPage;
    forall n: nat | n < TotalPages(total, perPage) ensures n * perPage < total {
      if n < q {
        Monotone(n, q - 1, perPage);
        assert (q - 1) * perPage == q * perPage - perPage;
      }
    }
  }

  lemma Monotone(a: nat, b: int, c: int)
    requires a <= b && c >= 0
    ensures a * c <= b * c
  {
    assert b * c == a * c + (b - a) * c;
    assert (b - a) * c >= 0;
  }

  /** What LIMIT and OFFSET cut out of a list. */
  function Page<T>(list: seq<T>, p: Params): seq<T>
    requires p.page >= 1 && p.perPage >= 1
  {
    Cut(list, p.Offset(), p.Limit())
  }

  function Cut<T>(list: seq<T>, offset: int, limit: nat): seq<T> {
    if offset < 0 || offset >= |list| then []
    else if offset + limit > |list| then list[offset..]
    else list[offset..offset + limit]
  }

  /** Pages 1 to n, one after the other. */
  function Pages<T>(list: seq<T>, perPage: int, n: nat): seq<T>
    requires perPage >= 1
  {
    if n == 0 then [] else Pages(list, perPage, n - 1) + Page(list, Params(n, perPage))
  }

  lemma {:induction false} FirstPages<T>(list: seq<T>, perPage: int, n: nat)
    requires perPage >= 1
    ensures n * perPage >= 0
    ensures Pages(list, perPage, n) == if n * perPage <= |list| then list[..n * perPage] else list
  {
    if n > 0 {
      FirstPages(list, perPage, n - 1);
      assert n * perPage == (n - 1) * perPage + perPage;
      var offset := (n - 1) * perPage;
      assert Page(list, Params(n, perPage)) == Cut(list, offset, perPage);
      CutNext(list, offset, perPage);
    }
  }

  lemma CutNext<T>(list: seq<T>, offset: nat, limit: nat)
    ensures (if offset <= |list| then list[..offset] else list) + Cut(list, offset, limit) ==
            if offset + limit <= |list| then list[..offset + limit] else list
  {
  }

  /**
   * For any list and any parameters a request can lead to, the pages up to the total are the list exactly once and in
   * order.
   */
  lemma {:induction false} PagesTile<T>(list: seq<T>, perPage: int)
    requires 1 <= perPage <= MAX_PER_PAGE
    ensures Pages(list, perPage, TotalPages(|list|, perPage)) == list
  {
    var total := TotalPages(|list|, perPage);
    TotalPagesLeast(|list|, perPage);
    FirstPages(list, perPage, total);
  }

  /** Every page before the last is full, the last is not empty, and every later page is. */
  lemma {:induction false} OnlyLastIsShort<T>(list: seq<T>, perPage: int, page: int)
    requires 1 <= perPage <= MAX_PER_PAGE && page >= 1
    ensures page < TotalPages(|list|, perPage) ==> |Page(list, Params(page, perPage))| == perPage
    ensures page == TotalPages(|list|, perPage) ==> 0 < |Page(list, Params(page, perPage))| <= perPage
    ensures page > TotalPages(|list|, perPage) ==> Page(list, Params(page, perPage)) == []
    ensures Params(page, perPage).Offset() >= 0 && Params(page, perPage).Limit() == perPage
  {
    var total := TotalPages(|list|, perPage);
    TotalPagesLeast(|list|, perPage);
    var offset := (page - 1) * perPage;
    assert page * perPage == offset + perPage;
    Monotone(0, page - 1, perPage);
    if page > total {
      Monotone(total, page - 1, perPage);
    } else {
      assert offset < |list|;
    }
  }
}
