/**
  Tag derivation of the response cache (app/cache.py): a request path is mapped to
  the tags its cached response depends on (`cacheTags`) and the tags of the
  collections that must also be dropped when that resource changes (`relatedTags`).
 */
module Tags {
  import opened Wrappers
  import opened Text

  datatype TagInfo = TagInfo(cacheTags: set<string>, relatedTags: set<string>)

  /** `[segment for segment in path.strip("/").split("/") if segment]`. Stripping the
      outer slashes first only removes empty pieces, which the filter drops anyway. */
  function Segments(path: string): (r: seq<string>)
    ensures forall i :: 0 <= i < |r| ==> IsSegment(r[i])
  {
    var pieces := Split(path, '/');
    var r := NonEmptyParts(pieces);
    assert forall i :: 0 <= i < |r| ==> r[i] != [] && exists j :: 0 <= j < |pieces| && pieces[j] == r[i];
    r
  }

  /** What a path segment can be: non-empty and free of `/`. */
  predicate IsSegment(s: string) {
    s != [] && '/' !in s
  }

  /** `f"path:/{'/'.join(segments)}"`, the fallback of the two resource descents. */
  function Fallback(segments: seq<string>): string {
    "path:/" + Join(segments, "/")
  }

  /** `_series_tags`: descent below `series`. */
  function SeriesTags(segments: seq<string>): (r: TagInfo)
    requires |segments| >= 1
    ensures |r.cacheTags| == 1 && |r.relatedTags| <= 1
    ensures "" !in r.cacheTags && "" !in r.relatedTags
  {
    if |segments| == 1 then TagInfo({"series:list"}, {})
    else
      var seriesTag := "series:" + segments[1];
      if |segments| == 2 then TagInfo({seriesTag}, {"series:list"})
      else if segments[2] != "issues" then TagInfo({Fallback(segments)}, {})
      else if |segments| == 3 then TagInfo({seriesTag + ":issues:list"}, {})
      else
        var issueTag := seriesTag + ":issues:" + segments[3];
        if |segments| == 4 then TagInfo({issueTag}, {seriesTag + ":issues:list"})
        else if segments[4] != "copies" then TagInfo({Fallback(segments)}, {})
        else if |segments| == 5 then TagInfo({issueTag + ":copies:list"}, {issueTag})
        else
          var copyTag := issueTag + ":copies:" + segments[5];
          if |segments| == 6 then TagInfo({copyTag}, {issueTag + ":copies:list"})
          else if |segments| == 7 && segments[6] == "images" then
            TagInfo({copyTag + ":images"}, {copyTag})
          else TagInfo({Fallback(segments)}, {})
  }

  /** `_issue_copy_tags`: descent below the flat `issues` alias. */
  function IssueCopyTags(segments: seq<string>): (r: TagInfo)
    requires |segments| >= 1
    ensures |r.cacheTags| == 1 && |r.relatedTags| <= 1
    ensures "" !in r.cacheTags && "" !in r.relatedTags
  {
    if |segments| == 1 then TagInfo({"issues:list"}, {})
    else
      var issueTag := "issues:" + segments[1];
      if |segments| == 2 then TagInfo({issueTag}, {"issues:list"})
      else if segments[2] != "copies" then TagInfo({Fallback(segments)}, {})
      else if |segments| == 3 then TagInfo({issueTag + ":copies:list"}, {issueTag})
      else TagInfo({issueTag + ":copies:" + segments[3]}, {issueTag + ":copies:list"})
  }

  /** `derive_tags`: total, exactly one cache tag and at most one related tag. */
  function DeriveTags(path: string): (r: TagInfo)
    ensures |r.cacheTags| == 1 && |r.relatedTags| <= 1
    ensures "" !in r.cacheTags && "" !in r.relatedTags
    ensures Segments(path) == [] ==> r == TagInfo({"root"}, {})
  {
    var segments := Segments(path);
    if segments == [] then TagInfo({"root"}, {})
    else if segments[0] == "series" then SeriesTags(segments)
    else if segments[0] == "issues" then IssueCopyTags(segments)
    else if segments[0] == "v1" && |segments| >= 2 && segments[1] == "jobs" then
      if |segments| >= 3 then TagInfo({"jobs:" + segments[2]}, {})
      else TagInfo({"jobs:list"}, {})
    else TagInfo({"path:" + path}, {})
  }

  /** The one cache tag of a path. */
  lemma DeriveTagsHasCacheTag(path: string) returns (t: string)
    ensures DeriveTags(path).cacheTags == {t}
  {
    var tags := DeriveTags(path).cacheTags;
    t :| t in tags;
    assert |tags - {t}| == 0;
  }

  // ---------------------------------------------------------------------------
  // Reference definition: the resource hierarchy the tags name.
  // ---------------------------------------------------------------------------

  datatype Resource =
    | Root
    | SeriesList
    | SeriesItem(series: string)
    | SeriesIssueList(series: string)
    | SeriesIssue(series: string, issue: string)
    | SeriesCopyList(series: string, issue: string)
    | SeriesCopy(series: string, issue: string, copy: string)
    | SeriesCopyImages(series: string, issue: string, copy: string)
    | IssueList
    | IssueItem(issue: string)
    | IssueCopyList(issue: string)
    | IssueCopy(issue: string, copy: string)
    | JobList
    | Job(job: string)

  /** Every identifier in the resource is a usable path segment. */
  predicate WellFormed(r: Resource) {
    match r
    case Root | SeriesList | IssueList | JobList => true
    case SeriesItem(s) => IsSegment(s)
    case SeriesIssueList(s) => IsSegment(s)
    case SeriesIssue(s, i) => IsSegment(s) && IsSegment(i)
    case SeriesCopyList(s, i) => IsSegment(s) && IsSegment(i)
    case SeriesCopy(s, i, c) => IsSegment(s) && IsSegment(i) && IsSegment(c)
    case SeriesCopyImages(s, i, c) => IsSegment(s) && IsSegment(i) && IsSegment(c)
    case IssueItem(i) => IsSegment(i)
    case IssueCopyList(i) => IsSegment(i)
    case IssueCopy(i, c) => IsSegment(i) && IsSegment(c)
    case Job(j) => IsSegment(j)
  }

  /** The canonical path segments of a resource. */
  function ResourceSegments(r: Resource): seq<string> {
    match r
    case Root => []
    case SeriesList => ["series"]
    case SeriesItem(s) => ["series", s]
    case SeriesIssueList(s) => ["series", s, "issues"]
    case SeriesIssue(s, i) => ["series", s, "issues", i]
    case SeriesCopyList(s, i) => ["series", s, "issues", i, "copies"]
    case SeriesCopy(s, i, c) => ["series", s, "issues", i, "copies", c]
    case SeriesCopyImages(s, i, c) => ["series", s, "issues", i, "copies", c, "images"]
    case IssueList => ["issues"]
    case IssueItem(i) => ["issues", i]
    case IssueCopyList(i) => ["issues", i, "copies"]
    case IssueCopy(i, c) => ["issues", i, "copies", c]
    case JobList => ["v1", "jobs"]
    case Job(j) => ["v1", "jobs", j]
  }

  /** The request path of a resource. */
  function PathOf(r: Resource): string {
    "/" + Join(ResourceSegments(r), "/")
  }

  function SeriesTagOf(s: string): string { "series:" + s }

  function IssueTagOf(s: string, i: string): string { SeriesTagOf(s) + ":issues:" + i }

  function CopyTagOf(s: string, i: string, c: string): string { IssueTagOf(s, i) + ":copies:" + c }

  /** The tag that names a resource. */
  function ResourceTag(r: Resource): string {
    match r
    case Root => "root"
    case SeriesList => "series:list"
    case SeriesItem(s) => SeriesTagOf(s)
    case SeriesIssueList(s) => SeriesTagOf(s) + ":issues:list"
    case SeriesIssue(s, i) => IssueTagOf(s, i)
    case SeriesCopyList(s, i) => IssueTagOf(s, i) + ":copies:list"
    case SeriesCopy(s, i, c) => CopyTagOf(s, i, c)
    case SeriesCopyImages(s, i, c) => CopyTagOf(s, i, c) + ":images"
    case IssueList => "issues:list"
    case IssueItem(i) => "issues:" + i
    case IssueCopyList(i) => "issues:" + i + ":copies:list"
    case IssueCopy(i, c) => "issues:" + i + ":copies:" + c
    case JobList => "jobs:list"
    case Job(j) => "jobs:" + j
  }

  predicate IsProperPrefix(a: seq<string>, b: seq<string>) {
    |a| < |b| && b[..|a|] == a
  }

  /** The resource whose cached responses a change to `r` also makes stale: always
      an ancestor of `r` in the path hierarchy. A series' issue listing has none. */
  function Related(r: Resource): (p: Option<Resource>)
    ensures p.Some? ==> IsProperPrefix(ResourceSegments(p.value), ResourceSegments(r))
    ensures p.Some? ==> WellFormed(r) ==> WellFormed(p.value)
  {
    match r
    case SeriesItem(_) => Some(SeriesList)
    case SeriesIssue(s, _) => Some(SeriesIssueList(s))
    case SeriesCopyList(s, i) => Some(SeriesIssue(s, i))
    case SeriesCopy(s, i, _) => Some(SeriesCopyList(s, i))
    case SeriesCopyImages(s, i, c) => Some(SeriesCopy(s, i, c))
    case IssueItem(_) => Some(IssueList)
    case IssueCopyList(i) => Some(IssueItem(i))
    case IssueCopy(i, _) => Some(IssueCopyList(i))
    case _ => None
  }

  /** The tags the hierarchy assigns to a resource. */
  function ExpectedTags(r: Resource): TagInfo {
    TagInfo({ResourceTag(r)}, match Related(r) case Some(p) => {ResourceTag(p)} case None => {})
  }

  /** Recognises the resource a sequence of segments addresses, by segment count. */
  function Classify(segs: seq<string>): Option<Resource> {
    if segs == [] then Some(Root)
    else if segs[0] == "series" then
      if |segs| == 1 then Some(SeriesList)
      else if |segs| == 2 then Some(SeriesItem(segs[1]))
      else if segs[2] != "issues" then None
      else if |segs| == 3 then Some(SeriesIssueList(segs[1]))
      else if |segs| == 4 then Some(SeriesIssue(segs[1], segs[3]))
      else if segs[4] != "copies" then None
      else if |segs| == 5 then Some(SeriesCopyList(segs[1], segs[3]))
      else if |segs| == 6 then Some(SeriesCopy(segs[1], segs[3], segs[5]))
      else if |segs| == 7 && segs[6] == "images" then Some(SeriesCopyImages(segs[1], segs[3], segs[5]))
      else None
    else if segs[0] == "issues" then
      if |segs| == 1 then Some(IssueList)
      else if |segs| == 2 then Some(IssueItem(segs[1]))
      else if segs[2] != "copies" then None
      else if |segs| == 3 then Some(IssueCopyList(segs[1]))
      else Some(IssueCopy(segs[1], segs[3]))
    else if |segs| >= 2 && segs[0] == "v1" && segs[1] == "jobs" then
      if |segs| >= 3 then Some(Job(segs[2])) else Some(JobList)
    else None
  }

  /** The fallback tag of a path no resource matches. */
  function FallbackTag(path: string): string {
    var segs := Segments(path);
    if segs != [] && (segs[0] == "series" || segs[0] == "issues") then Fallback(segs)
    else "path:" + path
  }

  /** `derive_tags` agrees with the hierarchy: a path that addresses a resource gets the
      resource's tag and its related collection's tag; any other path gets a single
      fallback tag and no related tags. */
  lemma DeriveTagsByClassification(path: string)
    ensures DeriveTags(path) == match Classify(Segments(path))
                                case Some(r) => ExpectedTags(r)
                                case None => TagInfo({FallbackTag(path)}, {})
  {
    var segs := Segments(path);
    if segs != [] && segs[0] == "series" {
      SeriesByClassification(segs);
    } else if segs != [] && segs[0] == "issues" {
      IssuesByClassification(segs);
    }
  }

  /** Below `series`, the descent names the resource the segments address. */
  lemma SeriesByClassification(segs: seq<string>)
    requires |segs| >= 1 && segs[0] == "series"
    ensures SeriesTags(segs) == match Classify(segs)
                                case Some(r) => ExpectedTags(r)
                                case None => TagInfo({Fallback(segs)}, {})
  {
  }

  /** Below the flat `issues` alias, likewise. */
  lemma IssuesByClassification(segs: seq<string>)
    requires |segs| >= 1 && segs[0] == "issues"
    ensures IssueCopyTags(segs) == match Classify(segs)
                                   case Some(r) => ExpectedTags(r)
                                   case None => TagInfo({Fallback(segs)}, {})
  {
  }

  /** The resource recovered from its own segments is the resource. */
  lemma ClassifyResourceSegments(r: Resource)
    requires WellFormed(r)
    ensures Classify(ResourceSegments(r)) == Some(r)
  {
  }

  /** A path is split back into the segments it was joined from. */
  lemma {:induction false} SegmentsOfJoin(segs: seq<string>)
    requires forall i :: 0 <= i < |segs| ==> IsSegment(segs[i])
    ensures Segments(Join(segs, "/")) == segs
    ensures Segments("/" + Join(segs, "/")) == segs
  {
    var joined := Join(segs, "/");
    if segs == [] {
      assert Split(joined, '/') == [""];
      assert Split("/" + joined, '/') == ["", ""];
    } else {
      SplitJoin(segs, '/');
      assert Split(joined, '/') == segs;
      NonEmptyPartsKeepsNonEmpty(segs);
      assert ("/" + joined)[1..] == joined;
      assert Split("/" + joined, '/') == [""] + segs;
      assert ([""] + segs)[1..] == segs;
    }
  }

  lemma DeriveTagsOfClassified(path: string, r: Resource)
    requires Classify(Segments(path)) == Some(r)
    ensures DeriveTags(path) == ExpectedTags(r)
  {
    DeriveTagsByClassification(path);
  }

  /** Every well-formed resource's path derives exactly the hierarchy's tags. */
  lemma DeriveTagsOfResource(r: Resource)
    requires WellFormed(r)
    ensures DeriveTags(PathOf(r)) == ExpectedTags(r)
  {
    var segs := ResourceSegments(r);
    assert forall i :: 0 <= i < |segs| ==> IsSegment(segs[i]);
    SegmentsOfJoin(segs);
    ClassifyResourceSegments(r);
    DeriveTagsOfClassified(PathOf(r), r);
  }

  /** A change to a resource also invalidates the tag of the ancestor collection
      that lists it, and that tag is what the ancestor's own path derives. */
  lemma RelatedTagIsAncestorTag(r: Resource)
    requires WellFormed(r) && Related(r).Some?
    ensures DeriveTags(PathOf(r)).relatedTags == DeriveTags(PathOf(Related(r).value)).cacheTags
  {
    DeriveTagsOfResource(r);
    DeriveTagsOfResource(Related(r).value);
  }

  /** Below the flat alias, segments after the copy id are ignored. */
  lemma IssueCopyIgnoresTrailingSegments(i: string, c: string, extra: seq<string>)
    ensures IssueCopyTags(["issues", i, "copies", c] + extra) == IssueCopyTags(["issues", i, "copies", c])
    ensures IssueCopyTags(["issues", i, "copies", c]) == TagInfo({"issues:" + i + ":copies:" + c}, {"issues:" + i + ":copies:list"})
  {
  }

  /** The tags of a path whose segments are known. */
  lemma DeriveTagsOfSegments(segs: seq<string>, path: string)
    requires forall i :: 0 <= i < |segs| ==> IsSegment(segs[i])
    requires path == Join(segs, "/") || path == "/" + Join(segs, "/")
    ensures DeriveTags(path) == match Classify(segs)
                                case Some(r) => ExpectedTags(r)
                                case None => TagInfo({FallbackTag(path)}, {})
    ensures Segments(path) == segs
  {
    SegmentsOfJoin(segs);
    DeriveTagsByClassification(path);
  }

  /**
   * The `v1` prefix is recognised only before `jobs`: any other path whose first
   * segment is `v1` gets its literal path tag and no related tags.
   */
  lemma VersionedPathFallsBack(segs: seq<string>, path: string)
    requires forall i :: 0 <= i < |segs| ==> IsSegment(segs[i])
    requires |segs| >= 1 && segs[0] == "v1" && (|segs| == 1 || segs[1] != "jobs")
    requires path == "/" + Join(segs, "/")
    ensures DeriveTags(path) == TagInfo({"path:" + path}, {})
  {
    DeriveTagsOfSegments(segs, path);
    assert Classify(segs) == None;
  }

  /** So a versioned series item does not get `series:{id}`. */
  lemma VersionedSeriesPathFallsBack(id: string)
    requires IsSegment(id)
    ensures DeriveTags("/v1/series/" + id) == TagInfo({"path:/v1/series/" + id}, {})
  {
    var segs := ["v1", "series", id];
    assert Join([id], "/") == id;
    assert segs[1..] == ["series", id] && segs[1..][1..] == [id];
    assert Join(["series", id], "/") == "series" + "/" + id;
    assert Join(segs, "/") == "v1" + "/" + ("series" + "/" + id);
    assert "/" + ("v1" + "/" + ("series" + "/" + id)) == "/v1/series/" + id;
    VersionedPathFallsBack(segs, "/v1/series/" + id);
    assert "path:" + ("/v1/series/" + id) == "path:/v1/series/" + id;
  }

  /** A shape outside the hierarchy below `series` gets the joined-segments fallback. */
  lemma SeriesUnknownChildFallsBack(id: string, child: string)
    requires IsSegment(id) && IsSegment(child) && child != "issues"
    ensures DeriveTags("series/" + id + "/" + child) == TagInfo({"path:/series/" + id + "/" + child}, {})
  {
    var segs := ["series", id, child];
    assert Join([child], "/") == child;
    assert segs[1..] == [id, child] && segs[1..][1..] == [child];
    assert Join([id, child], "/") == id + "/" + child;
    assert Join(segs, "/") == "series" + "/" + (id + "/" + child);
    assert "series" + "/" + (id + "/" + child) == "series/" + id + "/" + child;
    DeriveTagsOfSegments(segs, "series/" + id + "/" + child);
    assert segs[0] == "series" && |segs| == 3 && segs[2] != "issues";
    assert Classify(segs) == None;
    assert FallbackTag("series/" + id + "/" + child) == Fallback(segs);
    assert "path:/" + ("series/" + id + "/" + child) == "path:/series/" + id + "/" + child;
  }
}
