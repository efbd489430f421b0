/** One page of a listing with its metadata (domain/common/PaginatedResult.java). */
module Pagination {
  import opened Common

  const NegativePageMessage := "O número da página não pode ser negativo."
  const PageSizeMessage := "O tamanho da página deve ser maior que zero."

  /** The number of pages of size pageSize needed for totalElements elements: the
      ceiling of their quotient, as an exact integer division. */
  function TotalPages(totalElements: int, pageSize: int): (pages: int)
    requires pageSize > 0
    ensures (pages - 1) * pageSize < totalElements <= pages * pageSize
    ensures totalElements >= 0 ==> pages >= 0
    ensures totalElements == 0 ==> pages == 0
    ensures totalElements > 0 ==> pages >= 1
  {
    var q := (totalElements + pageSize - 1) / pageSize;
    assert (q - 1) * pageSize == q * pageSize - pageSize;
    q
  }

  lemma MulMonotone(a: int, b: int, c: int)
    requires a <= b && c > 0
    ensures a * c <= b * c
  {
    assert b * c - a * c == (b - a) * c;
  }

  /** The two bounds of TotalPages pin the result down: it is the only integer k
      with (k - 1) * pageSize < totalElements <= k * pageSize. */
  lemma TotalPagesUnique(totalElements: int, pageSize: int, k: int)
    requires pageSize > 0
    requires (k - 1) * pageSize < totalElements <= k * pageSize
    ensures k == TotalPages(totalElements, pageSize)
  {
    var q := TotalPages(totalElements, pageSize);
    if k < q {
      MulMonotone(k, q - 1, pageSize);
    } else if k > q {
      MulMonotone(q, k - 1, pageSize);
    }
  }

  /** A page index is below TotalPages exactly when the page starts before the end. */
  lemma PageBelowTotal(totalElements: int, pageSize: int, page: int)
    requires pageSize > 0 && page >= 0
    ensures page < TotalPages(totalElements, pageSize) <==> page * pageSize < totalElements
  {
    var q := TotalPages(totalElements, pageSize);
    if page < q {
      MulMonotone(page, q - 1, pageSize);
    } else {
      MulMonotone(q, page, pageSize);
    }
  }

  /** The metadata of a page, as a value. */
  datatype Page<T> = Page(content: seq<T>, pageNumber: int, pageSize: int, totalElements: int, totalPages: int)

  /** What the constructor establishes; the setters do not keep it. */
  predicate Consistent<T>(p: Page<T>) {
    p.pageNumber >= 0 && p.pageSize > 0 && p.totalPages == TotalPages(p.totalElements, p.pageSize)
  }

  /** The constructor PaginatedResult(content, pageNumber, pageSize, totalElements):
      the page number is checked before the page size; totalElements is not checked. */
  function MakePage<T>(content: seq<T>, pageNumber: int, pageSize: int, totalElements: int): (r: Result<Page<T>>)
    ensures r.Ok? <==> pageNumber >= 0 && pageSize > 0
    ensures pageNumber < 0 ==> r == Err(DomainError(NegativePageMessage))
    ensures pageNumber >= 0 && pageSize <= 0 ==> r == Err(DomainError(PageSizeMessage))
    ensures r.Ok? ==> Consistent(r.value)
    ensures r.Ok? ==> && r.value.content == content && r.value.pageNumber == pageNumber
                      && r.value.pageSize == pageSize && r.value.totalElements == totalElements
  {
    if pageNumber < 0 then Err(DomainError(NegativePageMessage))
    else if pageSize <= 0 then Err(DomainError(PageSizeMessage))
    else Ok(Page(content, pageNumber, pageSize, totalElements, TotalPages(totalElements, pageSize)))
  }

  /** The setters store any value and leave totalPages as it was, so a page can
      stop being consistent: shrinking the page size of a two-element, one-page
      result leaves it claiming one page where two are needed. */
  lemma SetPageSizeCanBreakConsistency()
    ensures var p := MakePage([0, 1], 0, 2, 2);
            p.Ok? && !Consistent(p.value.(pageSize := 1))
  {
    TotalPagesUnique(2, 2, 1);
    TotalPagesUnique(2, 1, 2);
  }

  class PaginatedResult<T> {
    var content: seq<T>
    var pageNumber: int
    var pageSize: int
    var totalElements: int
    var totalPages: int

    /** The getters, together. */
    function Value(): Page<T>
      reads this
    {
      Page(content, pageNumber, pageSize, totalElements, totalPages)
    }

    /** The field assignments of the constructor, after its checks. */
    constructor Init(p: Page<T>)
      ensures Value() == p
    {
      content, pageNumber, pageSize := p.content, p.pageNumber, p.pageSize;
      totalElements, totalPages := p.totalElements, p.totalPages;
    }

    /** new PaginatedResult(...): throws DomainException on a negative page
        number or a page size that is not positive. */
    static method New(content: seq<T>, pageNumber: int, pageSize: int, totalElements: int)
      returns (r: Result<PaginatedResult<T>>)
      ensures r.Ok? ==> fresh(r.value)
      ensures MakePage(content, pageNumber, pageSize, totalElements)
              == if r.Ok? then Ok(r.value.Value()) else Err(r.error)
    {
      if pageNumber < 0 {
        return Err(DomainError(NegativePageMessage));
      }
      if pageSize <= 0 {
        return Err(DomainError(PageSizeMessage));
      }
      var p := new PaginatedResult.Init(Page(content, pageNumber, pageSize, totalElements,
                                             TotalPages(totalElements, pageSize)));
      return Ok(p);
    }

    method SetContent(c: seq<T>)
      modifies this
      ensures Value() == old(Value()).(content := c)
    {
      content := c;
    }

    method SetPageNumber(n: int)
      modifies this
      ensures Value() == old(Value()).(pageNumber := n)
    {
      pageNumber := n;
    }

    /** Does not recompute totalPages and accepts any size. */
    method SetPageSize(n: int)
      modifies this
      ensures Value() == old(Value()).(pageSize := n)
    {
      pageSize := n;
    }

    /** Does not recompute totalPages. */
    method SetTotalElements(n: int)
      modifies this
      ensures Value() == old(Value()).(totalElements := n)
    {
      totalElements := n;
    }

    method SetTotalPages(n: int)
      modifies this
      ensures Value() == old(Value()).(totalPages := n)
    {
      totalPages := n;
    }
  }
}
