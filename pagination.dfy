/** The paging rules both listing services share: the bounds on skip and
    limit, the page number and page count they report, and the response
    flags derived from them. */
module Pagination {
  import opened Common

  const MaxLimit: nat := 100

  /** The listing's own argument check, made before the store is touched. */
  function CheckPaging(skip: int, limit: int): (e: Option<Error>)
    ensures e == None <==> 0 <= skip && 1 <= limit <= MaxLimit
    ensures skip < 0 ==> e == Some(ValidationError("Skip parameter must be non-negative"))
    ensures 0 <= skip && !(1 <= limit <= MaxLimit) ==> e == Some(ValidationError("Limit must be between 1 and 100"))
  {
    if skip < 0 then Some(ValidationError("Skip parameter must be non-negative"))
    else if limit <= 0 || limit > MaxLimit then Some(ValidationError("Limit must be between 1 and 100"))
    else None
  }

  /** skip // limit + 1: the 1-based page that holds offset skip. */
  function PageNumber(skip: nat, limit: nat): (p: int)
    requires limit >= 1
    ensures p >= 1
    ensures (p - 1) * limit <= skip < p * limit
  {
    var q := skip / limit;
    assert skip == q * limit + skip % limit;
    q + 1
  }

  /** (total + limit - 1) // limit: the ceiling of total / limit, the
      fewest pages of limit rows that hold total rows. */
  function PageCount(total: nat, limit: nat): (n: nat)
    requires limit >= 1
    ensures n * limit >= total
    ensures n > 0 ==> (n - 1) * limit < total
    ensures n == 0 <==> total == 0
  {
    var a := total + limit - 1;
    var q := a / limit;
    assert a == q * limit + a % limit;
    assert (q - 1) * limit == q * limit - limit;
    q
  }

  /** A page of a listing as the services return it. */
  datatype ListResponse<T> = ListResponse(items: seq<T>, total: int, page: int, pages: int, size: int)

  /** The response schema's field bounds. */
  predicate WellFormed<T>(r: ListResponse<T>)
  {
    r.total >= 0 && r.page >= 1 && r.pages >= 0 && 1 <= r.size <= MaxLimit
  }

  predicate HasNext<T>(r: ListResponse<T>)
    ensures WellFormed(r) && HasNext(r) ==> r.pages >= 2
  {
    r.page < r.pages
  }

  predicate HasPrevious<T>(r: ListResponse<T>)
    ensures WellFormed(r) ==> (HasPrevious(r) <==> r.page != 1)
  {
    r.page > 1
  }

  /** The response the services build from a page of rows. */
  function Respond<T>(items: seq<T>, total: nat, skip: nat, limit: nat): (r: ListResponse<T>)
    requires 1 <= limit <= MaxLimit
    ensures WellFormed(r)
    ensures r.items == items && r.total == total && r.size == limit
    ensures (r.page - 1) * limit <= skip < r.page * limit
    ensures r.pages * limit >= total && (r.pages > 0 ==> (r.pages - 1) * limit < total)
  {
    ListResponse(items, total, PageNumber(skip, limit), PageCount(total, limit), limit)
  }

  /** The response schema's item list: each row is validated again by
      the item schema, in order, and the first row it refuses decides
      the error. */
  function ValidateItems<T>(rows: seq<T>, check: T -> Result<T>): (r: Result<seq<T>>)
    ensures r.Ok? <==> forall k :: 0 <= k < |rows| ==> check(rows[k]).Ok?
    ensures r.Ok? ==> |r.value| == |rows| && forall k :: 0 <= k < |rows| ==> r.value[k] == check(rows[k]).value
    ensures r.Err? ==>
              exists k :: 0 <= k < |rows| && check(rows[k]) == Err(r.error)
                          && forall j :: 0 <= j < k ==> check(rows[j]).Ok?
  {
    if rows == [] then Ok([])
    else
      var head :- check(rows[0]);
      var tail := ValidateItems(rows[1..], check);
      if tail.Err? then
        var k :| 0 <= k < |rows[1..]| && check(rows[1..][k]) == Err(tail.error)
                 && forall j :: 0 <= j < k ==> check(rows[1..][j]).Ok?;
        assert check(rows[k + 1]) == Err(tail.error);
        Err(tail.error)
      else
        Ok([head] + tail.value)
  }

  /** When skip is a multiple of limit, has_next says exactly that rows
      remain after this page, and has_previous that rows precede it. */
  lemma AlignedFlags<T>(items: seq<T>, total: nat, skip: nat, limit: nat)
    requires 1 <= limit <= MaxLimit
    requires skip % limit == 0
    ensures HasNext(Respond(items, total, skip, limit)) <==> skip + limit < total
    ensures HasPrevious(Respond(items, total, skip, limit)) <==> skip > 0
  {
    var r := Respond(items, total, skip, limit);
    var k := skip / limit;
    assert skip == k * limit;
    PageOfAlignedSkip(k, r.page, limit);
    assert r.page * limit == skip + limit;
    NextIffRowsRemain(r.page, r.pages, limit, total);
  }

  /** The page holding offset k * limit is page k + 1. */
  lemma PageOfAlignedSkip(k: int, p: int, limit: nat)
    requires limit >= 1
    requires (p - 1) * limit <= k * limit < p * limit
    ensures p == k + 1
  {
    MulLessCancel(p - 1, k, limit);
    MulLessCancel(k, p, limit);
  }

  /** Against the ceiling page count, page p is followed by another page
      exactly when rows remain after its last offset. */
  lemma NextIffRowsRemain(p: int, n: int, limit: nat, total: nat)
    requires limit >= 1 && p >= 1
    requires n * limit >= total && (n > 0 ==> (n - 1) * limit < total)
    ensures p < n <==> p * limit < total
  {
    if p < n {
      MulMonotone(p, n - 1, limit);
    }
    if p * limit < total {
      MulLessCancel(p, n, limit);
    }
  }

  lemma MulMonotone(a: int, b: int, c: nat)
    requires a <= b
    ensures a * c <= b * c
  {
  }

  lemma MulLessCancel(a: int, b: int, c: nat)
    requires c >= 1
    ensures a * c < b * c ==> a < b
    ensures a * c <= b * c ==> a <= b
  {
    if a > b {
      MulMonotone(1, a - b, c);
      assert a * c - b * c == (a - b) * c;
    }
  }

  /** With an unaligned skip, has_next can hold although no row follows:
      rows 5..11 of 12 fill the page, yet page 1 of 2 reports a next page. */
  lemma UnalignedHasNext()
    ensures var r := Respond<int>([], 12, 5, 10); HasNext(r) && !(5 + 10 < 12)
  {
  }
}
