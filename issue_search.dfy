/**
 * Global issue search (app/routers/library/issues.py:19-50, 203-254): the
 * issues of every series whose title matches the query, series by series in
 * ranking order, paged by offset tokens.
 *
 * The database is two tables given as sequences: the series in ranking order
 * and the issues in `ORDER BY issue_nr, variant, issue_id` order.
 */
module IssueSearch {
  import opened Wrappers
  import opened Text
  import opened Paging
  import opened Search

  /** A row of `SELECT series_id, title FROM series`. */
  datatype SeriesRow = SeriesRow(seriesId: int, title: Option<string>)

  /** A row of the issue query; the columns the search does not look at are not modelled. */
  datatype IssueRow = IssueRow(issueId: int, seriesId: int, issueNumber: Option<string>, variant: Option<string>)

  /** A `ListIssuesResponse`. */
  datatype IssuePage = IssuePage(issues: seq<IssueRow>, nextPageToken: Option<string>)

  function Min(a: int, b: int): int { if a <= b then a else b }
  function Max(a: int, b: int): int { if a <= b then b else a }

  /** `row["title"] or ""` */
  function TitleText(row: SeriesRow): string {
    if row.title.Some? then row.title.value else ""
  }

  /** The `filtered` list of `_rank_matching_series`, kept in the given ranking order. */
  function MatchingSeries(ranked: seq<SeriesRow>, query: string): (r: seq<SeriesRow>)
    ensures |r| <= |ranked|
    ensures forall s :: s in r ==> s in ranked && MatchesSearch(TitleText(s), query)
    decreases |ranked|
  {
    if ranked == [] then []
    else if MatchesSearch(TitleText(ranked[0]), query) then [ranked[0]] + MatchingSeries(ranked[1..], query)
    else MatchingSeries(ranked[1..], query)
  }

  /** No matching series is dropped by the filter. */
  lemma {:induction false} MatchingSeriesKeepsMatches(ranked: seq<SeriesRow>, query: string, s: SeriesRow)
    requires s in ranked && MatchesSearch(TitleText(s), query)
    ensures s in MatchingSeries(ranked, query)
    decreases |ranked|
  {
    if ranked[0] != s {
      assert s in ranked[1..];
      MatchingSeriesKeepsMatches(ranked[1..], query, s);
    }
  }

  /** The rows of `WHERE series_id = ?`, in table order. */
  function IssuesOf(issues: seq<IssueRow>, seriesId: int): (r: seq<IssueRow>)
    ensures forall x :: x in r ==> x in issues && x.seriesId == seriesId
    ensures forall x :: x in issues && x.seriesId == seriesId ==> x in r
    decreases |issues|
  {
    if issues == [] then []
    else if issues[0].seriesId == seriesId then [issues[0]] + IssuesOf(issues[1..], seriesId)
    else IssuesOf(issues[1..], seriesId)
  }

  /** The issue list of every ranked series, in ranking order. */
  function Groups(ranked: seq<SeriesRow>, issues: seq<IssueRow>): (r: seq<seq<IssueRow>>)
    ensures |r| == |ranked|
    ensures forall k :: 0 <= k < |r| ==> r[k] == IssuesOf(issues, ranked[k].seriesId)
  {
    seq(|ranked|, k requires 0 <= k < |ranked| => IssuesOf(issues, ranked[k].seriesId))
  }

  /** The groups one after the other. */
  function Flatten(groups: seq<seq<IssueRow>>): seq<IssueRow>
    decreases |groups|
  {
    if groups == [] then [] else groups[0] + Flatten(groups[1..])
  }

  /** A row is in the flattened sequence exactly when it is in one of the groups. */
  lemma {:induction false} InFlatten(groups: seq<seq<IssueRow>>, x: IssueRow)
    ensures x in Flatten(groups) <==> exists k :: 0 <= k < |groups| && x in groups[k]
    decreases |groups|
  {
    if groups != [] {
      InFlatten(groups[1..], x);
      if x in Flatten(groups[1..]) {
        var k :| 0 <= k < |groups[1..]| && x in groups[1..][k];
        assert x in groups[k + 1];
      }
      forall k | 0 <= k < |groups| && x in groups[k] ensures x in Flatten(groups) {
        if k > 0 {
          assert x in groups[1..][k - 1];
        }
      }
    }
  }

  /** Every row the search can return: issues of the matching series, in ranking order. */
  function Matches(series: seq<SeriesRow>, issues: seq<IssueRow>, query: string): seq<IssueRow> {
    Flatten(Groups(MatchingSeries(series, query), issues))
  }

  /** A searched row is an issue of a series whose title matches, and every issue of such a series is searched. */
  lemma MatchesAreIssuesOfMatchingSeries(series: seq<SeriesRow>, issues: seq<IssueRow>, query: string, x: IssueRow)
    ensures x in Matches(series, issues, query) <==>
            x in issues && exists s :: s in series && s.seriesId == x.seriesId && s in MatchingSeries(series, query)
  {
    var ranked := MatchingSeries(series, query);
    var groups := Groups(ranked, issues);
    InFlatten(groups, x);
    if x in Matches(series, issues, query) {
      var k :| 0 <= k < |groups| && x in groups[k];
      assert ranked[k] in series && ranked[k].seriesId == x.seriesId;
    }
    if x in issues && exists s :: s in series && s.seriesId == x.seriesId && s in ranked {
      var s :| s in series && s.seriesId == x.seriesId && s in ranked;
      var k :| 0 <= k < |ranked| && ranked[k] == s;
      assert x in groups[k];
    }
  }

  /** A series passes the filter exactly when its title matches the query. */
  lemma MatchingSeriesIff(series: seq<SeriesRow>, query: string, s: SeriesRow)
    requires s in series
    ensures s in MatchingSeries(series, query) <==> MatchesSearch(TitleText(s), query)
  {
    if MatchesSearch(TitleText(s), query) {
      MatchingSeriesKeepsMatches(series, query, s);
    }
  }

  /**
   * `_collect_matching_issue_rows`: walks the groups, skips `offset` rows and
   * returns once `limit` rows are kept. The length test follows the append,
   * so a `limit` below 1 still keeps one row.
   */
  method CollectMatchingIssueRows(groups: seq<seq<IssueRow>>, offset: int, limit: int) returns (rows: seq<IssueRow>)
    ensures rows == Window(Flatten(groups), offset, limit)
  {
    ghost var flat := Flatten(groups);
    ghost var keep := Max(limit, 1);
    ghost var pos := 0;
    rows := [];
    var skipped := 0;
    for g := 0 to |groups|
      invariant 0 <= pos <= |flat| && flat[pos..] == Flatten(groups[g..])
      invariant skipped == Min(Max(offset, 0), pos)
      invariant rows == flat[skipped..pos] && |rows| < keep
    {
      var seriesIssues := groups[g];
      ghost var later := Flatten(groups[g + 1..]);
      FlattenStep(groups, g);
      for j := 0 to |seriesIssues|
        invariant 0 <= pos <= |flat| && flat[pos..] == seriesIssues[j..] + later
        invariant skipped == Min(Max(offset, 0), pos)
        invariant rows == flat[skipped..pos] && |rows| < keep
      {
        var issue := seriesIssues[j];
        Advance(flat, pos, seriesIssues, j, later, skipped);
        pos := pos + 1;
        if skipped < offset {
          skipped := skipped + 1;
          continue;
        }
        rows := rows + [issue];
        if |rows| >= limit {
          WindowFull(flat, offset, limit, skipped, pos);
          return;
        }
      }
    }
    assert groups[|groups|..] == [];
    WindowToEnd(flat, offset, limit, skipped, pos);
  }

  /**
   * What `_collect_matching_issue_rows` returns: the flattened rows with the
   * first `offset` dropped (none when it is negative), cut to `limit` rows,
   * or to one row when `limit` is below 1.
   */
  function Window(flat: seq<IssueRow>, offset: int, limit: int): (r: seq<IssueRow>)
    ensures |r| <= Max(limit, 1)
    ensures |r| == Min(Max(limit, 1), |flat| - Min(Max(offset, 0), |flat|))
  {
    var start := Min(Max(offset, 0), |flat|);
    flat[start..Min(|flat|, start + Max(limit, 1))]
  }

  /** The early return: the kept rows reached `limit`. */
  lemma WindowFull(flat: seq<IssueRow>, offset: int, limit: int, skipped: int, pos: int)
    requires 0 <= pos <= |flat| && skipped == Min(Max(offset, 0), pos) && skipped >= offset
    requires pos - skipped <= Max(limit, 1) && pos - skipped >= limit && pos > skipped
    ensures flat[skipped..pos] == Window(flat, offset, limit)
  {
  }

  /** The end of the walk: every row was looked at. */
  lemma WindowToEnd(flat: seq<IssueRow>, offset: int, limit: int, skipped: int, pos: int)
    requires pos == |flat| && skipped == Min(Max(offset, 0), pos) && pos - skipped < Max(limit, 1)
    ensures flat[skipped..pos] == Window(flat, offset, limit)
  {
  }

  lemma FlattenStep(groups: seq<seq<IssueRow>>, g: int)
    requires 0 <= g < |groups|
    ensures Flatten(groups[g..]) == groups[g] + Flatten(groups[g + 1..])
  {
    assert groups[g..][1..] == groups[g + 1..];
  }

  /** One row further along the flattened sequence. */
  lemma Advance(flat: seq<IssueRow>, pos: int, group: seq<IssueRow>, j: int, later: seq<IssueRow>, skipped: int)
    requires 0 <= pos <= |flat| && 0 <= j < |group| && flat[pos..] == group[j..] + later
    requires 0 <= skipped <= pos
    ensures pos < |flat| && flat[pos] == group[j] && flat[pos + 1..] == group[j + 1..] + later
    ensures flat[skipped..pos + 1] == flat[skipped..pos] + [flat[pos]]
  {
    assert flat[pos..][0] == group[j];
    assert flat[pos + 1..] == flat[pos..][1..];
  }

  /** The page an offset selects, and the token of the next one; the reference `search_issues` is proved against. */
  function PageAt(flat: seq<IssueRow>, offset: nat, pageSize: int): IssuePage
    requires pageSize >= 1
  {
    IssuePage(flat[Min(offset, |flat|)..Min(|flat|, offset + pageSize)],
              if offset + pageSize < |flat| then Some(IntToString(offset + pageSize)) else None)
  }

  /** A page holds at most `pageSize` rows, and a next token is handed out exactly when rows remain after it. */
  lemma PageAtBounds(flat: seq<IssueRow>, offset: nat, pageSize: int)
    requires pageSize >= 1
    ensures |PageAt(flat, offset, pageSize).issues| <= pageSize
    ensures PageAt(flat, offset, pageSize).nextPageToken.Some? <==> offset + pageSize < |flat|
    ensures offset + pageSize < |flat| ==> ParsePageToken(PageAt(flat, offset, pageSize).nextPageToken) == Ok(offset + pageSize)
  {
    if offset + pageSize < |flat| {
      ParseIntToString(offset + pageSize);
    }
  }

  /**
   * The rows seen by a client that starts at `offset` and follows every next
   * token it is handed, reading each token back as the server does.
   */
  function FollowPages(flat: seq<IssueRow>, offset: nat, pageSize: int): seq<IssueRow>
    requires pageSize >= 1
    decreases |flat| - offset
  {
    var page := PageAt(flat, offset, pageSize);
    if page.nextPageToken.None? then page.issues
    else
      PageAtBounds(flat, offset, pageSize);
      var next := ParsePageToken(page.nextPageToken).value;
      page.issues + FollowPages(flat, next, pageSize)
  }

  /** Following the tokens from an offset yields every row from there on, each once, in order. */
  lemma {:induction false} FollowPagesTiles(flat: seq<IssueRow>, offset: nat, pageSize: int)
    requires pageSize >= 1 && offset <= |flat|
    ensures FollowPages(flat, offset, pageSize) == flat[offset..]
    decreases |flat| - offset
  {
    PageAtBounds(flat, offset, pageSize);
    if offset + pageSize < |flat| {
      FollowPagesTiles(flat, offset + pageSize, pageSize);
      assert flat[offset..offset + pageSize] + flat[offset + pageSize..] == flat[offset..];
    }
  }

  /** Three rows and pages of two: the first page hands out "2", the second ends the list. */
  lemma ThreeRowsInPagesOfTwo(a: IssueRow, b: IssueRow, c: IssueRow)
    ensures PageAt([a, b, c], 0, 2) == IssuePage([a, b], Some("2"))
    ensures PageAt([a, b, c], 2, 2) == IssuePage([c], None)
    ensures ParsePageToken(Some("2")) == Ok(2)
  {
    TokenTwo();
    assert [a, b, c][0..2] == [a, b];
  }

  /** The token of offset 2 is the text "2", and it parses back to 2. */
  lemma TokenTwo()
    ensures IntToString(2) == "2"
    ensures ParsePageToken(Some("2")) == Ok(2)
  {
    assert IntToString(2) == "2";
    ParsePageTokenOfInt(2);
  }

  /** Fetching one row more than the page holds and cutting it to the page gives `PageAt`. */
  lemma PageOfWindow(flat: seq<IssueRow>, offset: nat, pageSize: int)
    requires pageSize >= 1
    ensures var rows := Window(flat, offset, pageSize + 1);
            IssuePage(rows[..Min(pageSize, |rows|)], NextPageToken(offset, pageSize, |rows|)) == PageAt(flat, offset, pageSize)
  {
  }

  const EmptyTitleSearch := HttpError(400, "title_search must not be empty")

  /** The request validation FastAPI applies before the handler runs, reduced to the first failing parameter. */
  const InvalidTitleSearch := HttpError(422, "title_search")
  const InvalidPageSize := HttpError(422, "page_size")

  /** The fetch of `search_issues`: one row more than the page, cut to the page, and the next token. */
  method FetchPage(series: seq<SeriesRow>, issues: seq<IssueRow>, query: string, offset: nat, pageSize: int)
    returns (page: IssuePage)
    requires pageSize >= 1
    ensures page == PageAt(Matches(series, issues, query), offset, pageSize)
  {
    var groups := Groups(MatchingSeries(series, query), issues);
    var rows := CollectMatchingIssueRows(groups, offset, pageSize + 1);
    PageOfWindow(Flatten(groups), offset, pageSize);
    page := IssuePage(rows[..Min(pageSize, |rows|)], NextPageToken(offset, pageSize, |rows|));
  }

  /** The body of `search_issues`, reached once the query constraints hold. */
  method HandleSearch(series: seq<SeriesRow>, issues: seq<IssueRow>, titleSearch: string, pageSize: int,
                      pageToken: Option<string>) returns (r: Result<IssuePage, HttpError>)
    requires |titleSearch| >= 1 && 1 <= pageSize <= MaxPageSize
    ensures Strip(titleSearch) == "" ==> r == Err(EmptyTitleSearch)
    ensures Strip(titleSearch) != "" && ParsePageToken(pageToken).Err? ==> r == Err(InvalidPageToken)
    ensures r.Ok? <==> Strip(titleSearch) != "" && ParsePageToken(pageToken).Ok?
    ensures r.Ok? ==> r.value == PageAt(Matches(series, issues, Strip(titleSearch)), ParsePageToken(pageToken).value, pageSize)
  {
    var query := Strip(titleSearch);
    if query == "" {
      return Err(EmptyTitleSearch);
    }
    var parsed := ParsePageToken(pageToken);
    if parsed.Err? {
      return Err(parsed.error);
    }
    var page := FetchPage(series, issues, query, parsed.value, pageSize);
    r := Ok(page);
  }

  /** `search_issues` over the two tables, with the query constraints of its parameters checked first. */
  method SearchIssues(series: seq<SeriesRow>, issues: seq<IssueRow>, titleSearch: string, pageSize: int,
                      pageToken: Option<string>) returns (r: Result<IssuePage, HttpError>)
    ensures |titleSearch| < 1 ==> r == Err(InvalidTitleSearch)
    ensures |titleSearch| >= 1 && !(1 <= pageSize <= MaxPageSize) ==> r == Err(InvalidPageSize)
    ensures |titleSearch| >= 1 && 1 <= pageSize <= MaxPageSize && Strip(titleSearch) == "" ==> r == Err(EmptyTitleSearch)
    ensures |titleSearch| >= 1 && 1 <= pageSize <= MaxPageSize && Strip(titleSearch) != "" && ParsePageToken(pageToken).Err?
            ==> r == Err(InvalidPageToken)
    ensures r.Ok? <==> |titleSearch| >= 1 && 1 <= pageSize <= MaxPageSize && Strip(titleSearch) != ""
                       && ParsePageToken(pageToken).Ok?
    ensures r.Ok? ==> r.value == PageAt(Matches(series, issues, Strip(titleSearch)), ParsePageToken(pageToken).value, pageSize)
  {
    if |titleSearch| < 1 {
      return Err(InvalidTitleSearch);
    }
    if !(1 <= pageSize <= MaxPageSize) {
      return Err(InvalidPageSize);
    }
    r := HandleSearch(series, issues, titleSearch, pageSize, pageToken);
  }
}
