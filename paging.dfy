/**
 * Offset paging shared by the library routers (app/routers/library/helpers.py:15-33):
 * a page token is the decimal offset of the first row of the page.
 */
module Paging {
  import opened Wrappers
  import opened Text

  const MaxPageSize := 100

  /** An `HTTPException`: status code and detail. */
  datatype HttpError = HttpError(status: int, detail: string)

  const InvalidPageToken := HttpError(400, "invalid page_token")

  /** `parse_page_token`: a missing or empty token is offset 0; anything `int()` refuses, or a negative number, is a 400. */
  function ParsePageToken(token: Option<string>): (r: Result<int, HttpError>)
    ensures r.Ok? ==> r.value >= 0
    ensures r.Err? ==> r.error == InvalidPageToken
    ensures token.None? || token == Some("") ==> r == Ok(0)
  {
    if token.None? || token.value == "" then Ok(0)
    else
      match ParseInt(token.value)
      case None => Err(InvalidPageToken)
      case Some(offset) => if offset < 0 then Err(InvalidPageToken) else Ok(offset)
  }

  /** `next_page_token`: the offset after this page, when more rows were found than fit on it. */
  function NextPageToken(offset: int, pageSize: int, rowsReturned: int): (r: Option<string>)
    ensures r.Some? <==> rowsReturned > pageSize
  {
    if rowsReturned > pageSize then Some(IntToString(offset + pageSize)) else None
  }

  /** A token handed out for a non-negative offset parses back to that offset. */
  lemma ParseNextPageToken(offset: int, pageSize: int, rowsReturned: int)
    requires offset + pageSize >= 0 && rowsReturned > pageSize
    ensures ParsePageToken(NextPageToken(offset, pageSize, rowsReturned)) == Ok(offset + pageSize)
  {
    ParseIntToString(offset + pageSize);
  }

  /** A token is accepted exactly when it is absent, empty, or an integer `int()` reads as non-negative. */
  lemma ParsePageTokenAccepts(token: string)
    ensures ParsePageToken(Some(token)).Ok? <==> token == "" || (ParseInt(token).Some? && ParseInt(token).value >= 0)
    ensures token != "" && ParsePageToken(Some(token)).Ok? ==> Some(ParsePageToken(Some(token)).value) == ParseInt(token)
  {
  }

  /** The decimal form of every offset is accepted back, and that of a negative number is refused. */
  lemma ParsePageTokenOfInt(n: int)
    ensures n >= 0 ==> ParsePageToken(Some(IntToString(n))) == Ok(n)
    ensures n < 0 ==> ParsePageToken(Some(IntToString(n))) == Err(InvalidPageToken)
  {
    ParseIntToString(n);
  }
}
