/**
 * The image upload routes (app/routers/library/images.py:55-150): accepting an
 * upload creates a pending job and queues its processing; processing moves the
 * job through its states, saves the image and invalidates the cached responses
 * that the change makes stale.
 *
 * The database lookups of `_build_context` are an input (the context, or the
 * 404 they raise), as is the outcome of writing the file (an exception message,
 * or none).
 */
module ImageRoutes {
  import opened Wrappers
  import opened Text
  import opened Schemas
  import opened Jobs
  import opened Storage
  import opened Tags
  import opened CacheStore
  import opened Paging

  const EmptyUpload := HttpError(400, "empty image upload")

  /** The arguments `add_task` queues for `_enqueue_image_job`. */
  datatype ImageTask = ImageTask(jobId: string, context: ImageContext, payload: seq<byte>, originalFilename: Option<string>)

  /** Why processing stopped early: an uncaught `KeyError`, or a cancellation out of `invalidate_paths`. */
  datatype Abort = UnknownJob | StoreCancelled

  /** `f"/v1/jobs/{job_id}"` */
  function JobPath(jobId: string): string {
    "/v1/jobs/" + jobId
  }

  /** `f"/series/{series_id}/issues/{issue_id}/copies/{copy_id}/images"` */
  function ImagesPath(context: ImageContext): string {
    "/series/" + IntToString(context.seriesId) + "/issues/" + IntToString(context.issueId)
    + "/copies/" + IntToString(context.copyId) + "/images"
  }

  /** The listing route's own path below `/v1`: the path the tests read the listing at. */
  function ListingPath(context: ImageContext): string {
    "/v1" + ImagesPath(context)
  }

  /** The tags a copy's image listing is cached under, as the hierarchy names them. */
  function CopyImagesResource(context: ImageContext): Resource {
    SeriesCopyImages(IntToString(context.seriesId), IntToString(context.issueId), IntToString(context.copyId))
  }

  /** Attempt 0 of every tag completes: no fault at all. */
  ghost predicate FaultFree(faults: FaultPlan) {
    forall t :: faults(t, 0) == Completes
  }

  /** A decimal number is a usable path segment. */
  lemma NumberIsSegment(n: int)
    ensures IsSegment(IntToString(n))
  {
  }

  /** `Join` of three parts, spelled out with the separator between neighbours. */
  lemma JoinOfThree(a: string, b: string, c: string, sep: string)
    ensures Join([a, b, c], sep) == a + sep + b + sep + c
  {
    var p := [a, b, c];
    assert p[1..] == [b, c] && p[1..][1..] == [c];
    assert Join([b, c], sep) == b + sep + c;
  }

  /** The tags `invalidate_paths` collects from two paths. */
  lemma PathTagsOfTwo(p: string, q: string)
    ensures PathTags([p]) == AllTags(p)
    ensures PathTags([p, q]) == AllTags(p) + AllTags(q)
  {
    UnionOverTwo(p, q, AllTags);
  }

  lemma UnionOverTwo(p: string, q: string, f: string -> set<string>)
    ensures UnionOver([p], f) == f(p)
    ensures UnionOver([p, q], f) == f(p) + f(q)
  {
    assert [p][..0] == [];
    assert [p, q][..1] == [p];
    assert UnionOver([p], f) == UnionOver([], f) + f(p);
  }

  /** Polling a job and invalidating it agree: the job path carries only the job's tag. */
  lemma JobPathTags(jobId: string)
    requires IsSegment(jobId)
    ensures AllTags(JobPath(jobId)) == {"jobs:" + jobId}
    ensures PathTags([JobPath(jobId)]) == {"jobs:" + jobId}
  {
    JoinOfThree("v1", "jobs", jobId, "/");
    assert "/" + ("v1" + "/" + "jobs" + "/" + jobId) == "/v1/jobs/" + jobId;
    assert PathOf(Job(jobId)) == JobPath(jobId);
    DeriveTagsOfResource(Job(jobId));
    PathTagsOfTwo(JobPath(jobId), JobPath(jobId));
  }

  /** `Join` of seven parts, spelled out with the separator between neighbours. */
  lemma JoinOfSeven(a: string, b: string, c: string, d: string, e: string, f: string, g: string, sep: string)
    ensures Join([a, b, c, d, e, f, g], sep) == a + sep + b + sep + c + sep + d + sep + e + sep + f + sep + g
  {
    var p := [a, b, c, d, e, f, g];
    assert p[1..] == [b, c, d, e, f, g];
    assert [b, c, d, e, f, g][1..] == [c, d, e, f, g];
    assert [c, d, e, f, g][1..] == [d, e, f, g];
    assert [d, e, f, g][1..] == [e, f, g];
    assert [e, f, g][1..] == [f, g];
    assert [f, g][1..] == [g];
    assert Join([f, g], sep) == f + sep + g;
    assert Join([e, f, g], sep) == e + sep + (f + sep + g);
    assert Join([d, e, f, g], sep) == d + sep + (e + sep + (f + sep + g));
    assert Join([c, d, e, f, g], sep) == c + sep + (d + sep + (e + sep + (f + sep + g)));
    assert Join([b, c, d, e, f, g], sep) == b + sep + (c + sep + (d + sep + (e + sep + (f + sep + g))));
  }

  /** Regrouping a concatenation of nine pieces. */
  lemma Regroup(x: string, a: string, sep: string, b: string, c: string, d: string, e: string, f: string, g: string)
    ensures x + (a + sep + b + sep + c + sep + d + sep + e + sep + f + sep + g)
            == (x + a + sep) + b + (sep + c + sep) + d + (sep + e + sep) + f + (sep + g)
  {
  }

  /** The path of a copy's images in the hierarchy, written out. */
  lemma CopyImagesPath(s: string, i: string, c: string)
    ensures PathOf(SeriesCopyImages(s, i, c)) == "/series/" + s + "/issues/" + i + "/copies/" + c + "/images"
  {
    JoinOfSeven("series", s, "issues", i, "copies", c, "images", "/");
    Regroup("/", "series", "/", s, "issues", i, "copies", c, "images");
    assert "/" + "series" + "/" == "/series/";
    assert "/" + "issues" + "/" == "/issues/";
    assert "/" + "copies" + "/" == "/copies/";
    assert "/" + "images" == "/images";
  }

  /** The path invalidated after a save is the path of the copy's images in the hierarchy. */
  lemma ImagesPathIsResource(context: ImageContext)
    ensures WellFormed(CopyImagesResource(context))
    ensures PathOf(CopyImagesResource(context)) == ImagesPath(context)
  {
    NumberIsSegment(context.seriesId);
    NumberIsSegment(context.issueId);
    NumberIsSegment(context.copyId);
    CopyImagesPath(IntToString(context.seriesId), IntToString(context.issueId), IntToString(context.copyId));
  }

  /** The tags of a copy's images path: the images tag and, related, the copy's tag. */
  lemma CopyImagesTags(r: Resource, path: string)
    requires r.SeriesCopyImages? && WellFormed(r) && PathOf(r) == path
    ensures AllTags(path) == {ResourceTag(r), ResourceTag(SeriesCopy(r.series, r.issue, r.copy))}
  {
    DeriveTagsOfResource(r);
  }

  /**
   * After a completed save the job's tag, the copy's images tag and the copy's
   * own tag are invalidated, and nothing else.
   */
  lemma CompletedSaveTags(jobId: string, context: ImageContext)
    requires IsSegment(jobId)
    ensures var r := CopyImagesResource(context);
            PathTags([JobPath(jobId), ImagesPath(context)])
            == {"jobs:" + jobId, ResourceTag(r), ResourceTag(SeriesCopy(r.series, r.issue, r.copy))}
  {
    var r := CopyImagesResource(context);
    JobPathTags(jobId);
    ImagesPathIsResource(context);
    CopyImagesTags(r, ImagesPath(context));
    PathTagsOfTwo(JobPath(jobId), ImagesPath(context));
  }

  /** The `/v1` listing path is outside the hierarchy: it carries only its raw-path fallback tag. */
  lemma ListingPathFallsBack(context: ImageContext)
    ensures AllTags(ListingPath(context)) == {"path:" + ListingPath(context)}
  {
    var r := CopyImagesResource(context);
    ImagesPathIsResource(context);
    var rest := ResourceSegments(r);
    var segs := ["v1"] + rest;
    assert segs[1..] == rest;
    assert forall k :: 0 <= k < |segs| ==> IsSegment(segs[k]);
    assert Join(segs, "/") == "v1" + "/" + Join(rest, "/");
    assert "/" + ("v1" + "/" + Join(rest, "/")) == "/v1" + ("/" + Join(rest, "/"));
    VersionedPathFallsBack(segs, ListingPath(context));
  }

  /** The copy tags of the hierarchy begin with `s`. */
  lemma CopyTagsStartWithS(s: string, i: string, c: string)
    ensures ResourceTag(SeriesCopyImages(s, i, c))[0] == 's' && ResourceTag(SeriesCopy(s, i, c))[0] == 's'
  {
  }

  /**
   * The tests read the listing at the `/v1` path, whose responses carry the
   * raw-path fallback tag; the un-prefixed path invalidated after a
   * save does not name it, so a cached listing outlives the upload.
   */
  lemma CachedListingIsNotInvalidated(jobId: string, context: ImageContext)
    requires IsSegment(jobId)
    ensures AllTags(ListingPath(context)) == {"path:" + ListingPath(context)}
    ensures AllTags(ListingPath(context)) !! PathTags([JobPath(jobId), ImagesPath(context)])
  {
    var r := CopyImagesResource(context);
    ListingPathFallsBack(context);
    CompletedSaveTags(jobId, context);
    CopyTagsStartWithS(r.series, r.issue, r.copy);
    var fallback := "path:" + ListingPath(context);
    assert fallback[0] == 'p';
    assert ("jobs:" + jobId)[0] == 'j';
  }

  /**
   * `upload_copy_image`: an empty payload is refused before anything else; a
   * failed lookup passes its error through; otherwise a pending job is created
   * and its processing queued.
   */
  method UploadCopyImage(jobs: ImageJobManager, jobId: string, seriesId: int, issueId: int, copyId: int,
                         imageType: ImageType, payload: seq<byte>, originalFilename: Option<string>,
                         context: Result<ImageContext, HttpError>)
    returns (r: Result<ImageUploadJob, HttpError>, task: Option<ImageTask>)
    modifies jobs
    ensures payload == [] ==> r == Err(EmptyUpload)
    ensures payload != [] && context.Err? ==> r == Err(context.error)
    ensures r.Err? ==> task.None? && jobs.jobs == old(jobs.jobs)
    ensures r.Ok? <==> payload != [] && context.Ok?
    ensures r.Ok? ==> && r.value == NewRecord(jobId, seriesId, issueId, copyId, imageType)
                      && r.value.status == Pending
                      && (jobs.jobs, None) == Apply(old(jobs.jobs), Create(jobId, seriesId, issueId, copyId, imageType))
                      && task == Some(ImageTask(jobId, context.value, payload, originalFilename))
  {
    if payload == [] {
      return Err(EmptyUpload), None;
    }
    if context.Err? {
      return Err(context.error), None;
    }
    var job := jobs.CreateJob(jobId, seriesId, issueId, copyId, imageType);
    task := Some(ImageTask(jobId, context.value, payload, originalFilename));
    r := Ok(job);
  }

  /**
   * The image root after `save_copy_image` stored the task's payload under its
   * built name in the copy's directory, and the description it returned.
   */
  predicate SavedAs(before: Files, after: Files, task: ImageTask, timestamp: string, token: string, image: ComicImage) {
    var name := BuildFilename(task.context.copyId, task.context.imageType, task.originalFilename, timestamp, token);
    && after == before[In(CopyDirectory(task.context), name) := task.payload]
    && image == ComicImage(task.context.seriesId, task.context.issueId, task.context.copyId,
                           task.context.imageType, name, RelativePath(In(CopyDirectory(task.context), name)))
  }

  /**
   * The `try`/`except`/`else` of `_process_image_job`: save the image, then
   * mark the job failed or completed and invalidate what that makes stale.
   */
  method ReportSave(jobs: ImageJobManager, store: Store, root: ImageRoot, task: ImageTask,
                    timestamp: string, token: string, saveError: Option<string>,
                    available: bool, faults: FaultPlan)
    returns (image: Option<ComicImage>, tags: set<string>, order: seq<string>, raised: bool)
    requires task.jobId in jobs.jobs
    modifies jobs, store, root
    ensures saveError.Some? ==>
              && image.None? && root.files == old(root.files)
              && (jobs.jobs, None) == Apply(old(jobs.jobs), MarkFailed(task.jobId, saveError.value))
              && tags == PathTags([JobPath(task.jobId)])
    ensures saveError.None? ==>
              && image.Some?
              && (jobs.jobs, None) == Apply(old(jobs.jobs), MarkCompleted(task.jobId, image.value))
              && tags == PathTags([JobPath(task.jobId), ImagesPath(task.context)])
              && SavedAs(old(root.files), root.files, task, timestamp, token, image.value)
    ensures RunTags(old(store.State()), order, 0, faults) == RunResult(store.State(), raised)
    ensures available && FaultFree(faults) ==> !raised
  {
    var jobId := task.jobId;
    if saveError.Some? {
      var _ := jobs.MarkFailed(jobId, saveError.value);
      tags, order, raised := store.InvalidatePaths([JobPath(jobId)], available, faults);
      image := None;
    } else {
      var saved := root.SaveCopyImage(task.context, task.payload, task.originalFilename, timestamp, token);
      var _ := jobs.MarkCompleted(jobId, saved);
      tags, order, raised := store.InvalidatePaths([JobPath(jobId), ImagesPath(task.context)], available, faults);
      image := Some(saved);
    }
    if available && FaultFree(faults) {
      RunTagsReliable(old(store.State()), order, 0, faults);
    }
  }

  /**
   * `_process_image_job` for one queued task. `calls` lists the tags of each
   * `invalidate_paths` call made, in order; `image` is the saved image's
   * description when the save succeeded. `faults` and `reportFaults` decide
   * the store's outcomes in the first and the second call.
   */
  method ProcessImageJob(jobs: ImageJobManager, store: Store, root: ImageRoot, task: ImageTask,
                         timestamp: string, token: string, saveError: Option<string>,
                         available: bool, faults: FaultPlan, reportFaults: FaultPlan)
    returns (abort: Option<Abort>, calls: seq<set<string>>, image: Option<ComicImage>)
    modifies jobs, store, root
    ensures task.jobId !in old(jobs.jobs) ==>
              && abort == Some(UnknownJob) && calls == [] && image.None?
              && jobs.jobs == old(jobs.jobs) && root.files == old(root.files) && store.State() == old(store.State())
    ensures task.jobId in old(jobs.jobs) ==> abort != Some(UnknownJob) && 1 <= |calls| <= 2
    ensures task.jobId in old(jobs.jobs) ==> calls[0] == PathTags([JobPath(task.jobId)])
    ensures task.jobId in old(jobs.jobs) && |calls| == 1 ==>
              && abort == Some(StoreCancelled) && image.None?
              && jobs.jobs == Apply(old(jobs.jobs), MarkInProgress(task.jobId)).0
              && root.files == old(root.files)
    ensures task.jobId in old(jobs.jobs) && |calls| == 2 && saveError.Some? ==>
              && image.None?
              && jobs.jobs == Run(old(jobs.jobs), [MarkInProgress(task.jobId), MarkFailed(task.jobId, saveError.value)]).0
              && root.files == old(root.files)
              && calls[1] == PathTags([JobPath(task.jobId)])
    ensures task.jobId in old(jobs.jobs) && |calls| == 2 && saveError.None? ==>
              && image.Some?
              && jobs.jobs == Run(old(jobs.jobs), [MarkInProgress(task.jobId), MarkCompleted(task.jobId, image.value)]).0
              && calls[1] == PathTags([JobPath(task.jobId), ImagesPath(task.context)])
              && SavedAs(old(root.files), root.files, task, timestamp, token, image.value)
    ensures task.jobId in old(jobs.jobs) && available && FaultFree(faults) && FaultFree(reportFaults) ==>
              && abort.None? && |calls| == 2
              && (IsSegment(task.jobId) ==>
                    && TagKey("jobs:" + task.jobId) !in store.tagSets
                    && forall k :: k in Members(old(store.State()), "jobs:" + task.jobId) ==> k !in store.responses)
  {
    var jobId := task.jobId;
    ghost var before := store.State();
    var missing := jobs.MarkInProgress(jobId);
    if missing.Some? {
      return Some(UnknownJob), [], None;
    }
    ghost var started := jobs.jobs;
    var tags, order, raised := store.InvalidatePaths([JobPath(jobId)], available, faults);
    calls := [tags];
    ghost var first := store.State();
    if available && FaultFree(faults) {
      RunTagsReliable(before, order, 0, faults);
    }
    if raised {
      return Some(StoreCancelled), calls, None;
    }
    var savedImage, secondTags, secondOrder, secondRaised :=
      ReportSave(jobs, store, root, task, timestamp, token, saveError, available, reportFaults);
    if saveError.Some? {
      NextAfterStart(old(jobs.jobs), started, MarkInProgress(jobId), MarkFailed(jobId, saveError.value));
    } else {
      NextAfterStart(old(jobs.jobs), started, MarkInProgress(jobId), MarkCompleted(jobId, savedImage.value));
    }
    calls := [tags, secondTags];
    image := savedImage;
    abort := if secondRaised then Some(StoreCancelled) else None;
    if available && FaultFree(faults) && FaultFree(reportFaults) && IsSegment(jobId) {
      JobPathTags(jobId);
      JobEntriesStayGone(before, order, faults, secondOrder, reportFaults, "jobs:" + jobId);
    }
  }

  /** Two successful steps are the run of both. */
  lemma NextAfterStart(table: Table, started: Table, a: JobOp, b: JobOp)
    requires Apply(table, a) == (started, None)
    ensures Run(table, [a, b]) == Apply(started, b)
  {
    assert [a, b][1..] == [b];
    assert Run(started, [b]) == Apply(started, b);
  }

  /** A second run, with any faults, brings back neither the tag's set nor a key it listed. */
  lemma JobEntriesStayGone(ks: Keyspace, order: seq<string>, faults: FaultPlan,
                           second: seq<string>, secondFaults: FaultPlan, tag: string)
    requires Reliable(faults, order) && tag in order
    ensures var after := RunTags(RunTags(ks, order, 0, faults).ks, second, 0, secondFaults).ks;
            && TagKey(tag) !in after.tagSets
            && forall k :: k in Members(ks, tag) ==> k !in after.responses
  {
    InvalidatedTagIsGone(ks, order, 0, faults, tag);
    RunTagsOnlyDeletes(RunTags(ks, order, 0, faults).ks, second, 0, secondFaults);
  }

  /** After a fault-free run over a tag, neither its set nor any key it listed remains. */
  lemma InvalidatedTagIsGone(ks: Keyspace, order: seq<string>, retries: int, faults: FaultPlan, tag: string)
    requires Reliable(faults, order) && tag in order
    ensures TagKey(tag) !in RunTags(ks, order, retries, faults).ks.tagSets
    ensures forall k :: k in Members(ks, tag) ==> k !in RunTags(ks, order, retries, faults).ks.responses
  {
    RunTagsReliable(ks, order, retries, faults);
    MembersInAll(ks, order, tag);
  }
}
