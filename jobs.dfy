/**
 * `ImageJobManager` (app/jobs.py:13-93): a table of upload jobs keyed by id.
 * Records are values, so a snapshot handed out by `create_job` or `get_job`
 * never changes with the table. The id `uuid4().hex` would produce is a
 * parameter.
 */
module Jobs {
  import opened Wrappers
  import opened Schemas

  /** `KeyError(job_id)` from `_require`. */
  datatype JobError = KeyError(jobId: string)

  type Table = map<string, ImageUploadJob>

  /** The operations of the manager that change the table. */
  datatype JobOp =
    | Create(jobId: string, seriesId: int, issueId: int, copyId: int, imageType: ImageType)
    | MarkInProgress(jobId: string)
    | MarkCompleted(jobId: string, result: ComicImage)
    | MarkFailed(jobId: string, detail: string)

  /** A new `_ImageJobRecord`: pending, with no detail and no result. */
  function NewRecord(jobId: string, seriesId: int, issueId: int, copyId: int, imageType: ImageType): ImageUploadJob {
    ImageUploadJob(jobId, seriesId, issueId, copyId, imageType, Pending, None, None)
  }

  /** Every record is filed under its own id. */
  predicate Keyed(table: Table) {
    forall k :: k in table ==> table[k].jobId == k
  }

  /** The same job apart from status, detail and result. */
  predicate SameJob(a: ImageUploadJob, b: ImageUploadJob) {
    a.jobId == b.jobId && a.seriesId == b.seriesId && a.issueId == b.issueId
    && a.copyId == b.copyId && a.imageType == b.imageType
  }

  /** `_require`: the record, or `KeyError`. */
  function Require(table: Table, jobId: string): (r: Result<ImageUploadJob, JobError>)
    ensures r.Ok? <==> jobId in table
    ensures r.Ok? ==> r.value == table[jobId]
    ensures r.Err? ==> r.error == KeyError(jobId)
  {
    if jobId in table then Ok(table[jobId]) else Err(KeyError(jobId))
  }

  /** The job an operation names. */
  function Target(op: JobOp): string {
    op.jobId
  }

  /** One operation on the table, with the error a mark on an unknown id raises. */
  function Apply(table: Table, op: JobOp): (r: (Table, Option<JobError>))
    ensures r.1.Some? <==> !op.Create? && Target(op) !in table
    ensures r.1.Some? ==> r.0 == table && r.1 == Some(KeyError(Target(op)))
    ensures r.1.None? ==> r.0.Keys == table.Keys + {Target(op)}
    ensures r.1.None? && !op.Create? ==> SameJob(r.0[Target(op)], table[Target(op)])
    ensures forall k :: k in table && k != Target(op) ==> r.0[k] == table[k]
    ensures Keyed(table) ==> Keyed(r.0)
  {
    match op
    case Create(id, s, i, c, t) => (table[id := NewRecord(id, s, i, c, t)], None)
    case MarkInProgress(id) =>
      (match Require(table, id)
       case Err(e) => (table, Some(e))
       case Ok(record) => (table[id := record.(status := InProgress, detail := None)], None))
    case MarkCompleted(id, result) =>
      (match Require(table, id)
       case Err(e) => (table, Some(e))
       case Ok(record) => (table[id := record.(status := Completed, detail := None, result := Some(result))], None))
    case MarkFailed(id, detail) =>
      (match Require(table, id)
       case Err(e) => (table, Some(e))
       case Ok(record) => (table[id := record.(status := Failed, detail := Some(detail))], None))
  }

  /** `mark_in_progress` clears the detail and keeps the result. */
  lemma MarkInProgressEffect(table: Table, id: string)
    requires id in table
    ensures var t := Apply(table, MarkInProgress(id)).0;
            t[id].status == InProgress && t[id].detail.None? && t[id].result == table[id].result
  {
  }

  /** `mark_completed` clears the detail and records the result. */
  lemma MarkCompletedEffect(table: Table, id: string, result: ComicImage)
    requires id in table
    ensures var t := Apply(table, MarkCompleted(id, result)).0;
            t[id].status == Completed && t[id].detail.None? && t[id].result == Some(result)
  {
  }

  /** `mark_failed` records the detail and does not clear an earlier result. */
  lemma MarkFailedEffect(table: Table, id: string, detail: string)
    requires id in table
    ensures var t := Apply(table, MarkFailed(id, detail)).0;
            t[id].status == Failed && t[id].detail == Some(detail) && t[id].result == table[id].result
  {
  }

  /** A sequence of operations; the first error stops it, as an uncaught `KeyError` would. */
  function Run(table: Table, ops: seq<JobOp>): (r: (Table, Option<JobError>))
    ensures table.Keys <= r.0.Keys
    ensures Keyed(table) ==> Keyed(r.0)
    decreases |ops|
  {
    if ops == [] then (table, None)
    else
      var (t, err) := Apply(table, ops[0]);
      if err.Some? then (t, err) else Run(t, ops[1..])
  }

  /** A job no operation names is left exactly as it was. */
  lemma {:induction false} RunLeavesOthers(table: Table, ops: seq<JobOp>, k: string)
    requires k in table
    requires forall i :: 0 <= i < |ops| ==> Target(ops[i]) != k
    ensures k in Run(table, ops).0 && Run(table, ops).0[k] == table[k]
    decreases |ops|
  {
    if ops != [] {
      var (t, err) := Apply(table, ops[0]);
      if err.None? {
        assert forall i :: 0 <= i < |ops[1..]| ==> Target(ops[1..][i]) == Target(ops[i + 1]);
        RunLeavesOthers(t, ops[1..], k);
      }
    }
  }

  /** The upload that succeeds: created pending, started, completed with its result. */
  lemma CompletedLifecycle(table: Table, id: string, s: int, i: int, c: int, ty: ImageType, result: ComicImage)
    ensures var (t, err) := Run(table, [Create(id, s, i, c, ty), MarkInProgress(id), MarkCompleted(id, result)]);
            && err.None? && id in t
            && t[id] == ImageUploadJob(id, s, i, c, ty, Completed, None, Some(result))
  {
    var t1 := Apply(table, Create(id, s, i, c, ty)).0;
    var t2 := Apply(t1, MarkInProgress(id)).0;
    assert [Create(id, s, i, c, ty), MarkInProgress(id), MarkCompleted(id, result)][1..] == [MarkInProgress(id), MarkCompleted(id, result)];
    assert [MarkInProgress(id), MarkCompleted(id, result)][1..] == [MarkCompleted(id, result)];
    assert Run(t2, [MarkCompleted(id, result)]) == Apply(t2, MarkCompleted(id, result));
  }

  /** The upload that fails: created pending, started, failed with the message and no result. */
  lemma FailedLifecycle(table: Table, id: string, s: int, i: int, c: int, ty: ImageType, detail: string)
    ensures var (t, err) := Run(table, [Create(id, s, i, c, ty), MarkInProgress(id), MarkFailed(id, detail)]);
            && err.None? && id in t
            && t[id] == ImageUploadJob(id, s, i, c, ty, Failed, Some(detail), None)
  {
    var t1 := Apply(table, Create(id, s, i, c, ty)).0;
    var t2 := Apply(t1, MarkInProgress(id)).0;
    assert [Create(id, s, i, c, ty), MarkInProgress(id), MarkFailed(id, detail)][1..] == [MarkInProgress(id), MarkFailed(id, detail)];
    assert [MarkInProgress(id), MarkFailed(id, detail)][1..] == [MarkFailed(id, detail)];
    assert Run(t2, [MarkFailed(id, detail)]) == Apply(t2, MarkFailed(id, detail));
  }

  /**
   * No transition looks at the current status: a completed job can be marked
   * failed, and then reports `failed` with the detail and the old result.
   */
  lemma TerminalStatusIsOverwritten(table: Table, id: string, result: ComicImage, detail: string)
    requires id in table
    ensures var (t, err) := Run(table, [MarkCompleted(id, result), MarkFailed(id, detail)]);
            && err.None? && id in t
            && t[id].status == Failed && t[id].detail == Some(detail) && t[id].result == Some(result)
  {
    var t1 := Apply(table, MarkCompleted(id, result)).0;
    assert [MarkCompleted(id, result), MarkFailed(id, detail)][1..] == [MarkFailed(id, detail)];
    assert Run(t1, [MarkFailed(id, detail)]) == Apply(t1, MarkFailed(id, detail));
  }

  class ImageJobManager {
    var jobs: Table

    constructor ()
      ensures jobs == map[]
    {
      jobs := map[];
    }

    /** `create_job`, with `jobId` standing for the `uuid4().hex` it draws. */
    method CreateJob(jobId: string, seriesId: int, issueId: int, copyId: int, imageType: ImageType) returns (job: ImageUploadJob)
      modifies this
      ensures (jobs, None) == Apply(old(jobs), Create(jobId, seriesId, issueId, copyId, imageType))
      ensures job == jobs[jobId] && job == NewRecord(jobId, seriesId, issueId, copyId, imageType)
    {
      var record := NewRecord(jobId, seriesId, issueId, copyId, imageType);
      jobs := jobs[record.jobId := record];
      job := record;
    }

    /** `mark_in_progress`; `error` is the `KeyError` raised for an unknown id. */
    method MarkInProgress(jobId: string) returns (error: Option<JobError>)
      modifies this
      ensures (jobs, error) == Apply(old(jobs), JobOp.MarkInProgress(jobId))
    {
      var found := Require(jobs, jobId);
      if found.Err? {
        return Some(found.error);
      }
      var record := found.value;
      record := record.(status := InProgress);
      record := record.(detail := None);
      jobs := jobs[jobId := record];
      error := None;
    }

    /** `mark_completed`. */
    method MarkCompleted(jobId: string, result: ComicImage) returns (error: Option<JobError>)
      modifies this
      ensures (jobs, error) == Apply(old(jobs), JobOp.MarkCompleted(jobId, result))
    {
      var found := Require(jobs, jobId);
      if found.Err? {
        return Some(found.error);
      }
      var record := found.value;
      record := record.(status := Completed);
      record := record.(detail := None);
      record := record.(result := Some(result));
      jobs := jobs[jobId := record];
      error := None;
    }

    /** `mark_failed`. */
    method MarkFailed(jobId: string, detail: string) returns (error: Option<JobError>)
      modifies this
      ensures (jobs, error) == Apply(old(jobs), JobOp.MarkFailed(jobId, detail))
    {
      var found := Require(jobs, jobId);
      if found.Err? {
        return Some(found.error);
      }
      var record := found.value;
      record := record.(status := Failed);
      record := record.(detail := Some(detail));
      jobs := jobs[jobId := record];
      error := None;
    }

    /** `get_job`: a snapshot of the record, or None for an unknown id. */
    method GetJob(jobId: string) returns (job: Option<ImageUploadJob>)
      ensures job.None? <==> jobId !in jobs
      ensures job.Some? ==> job.value == jobs[jobId]
      ensures Keyed(jobs) && job.Some? ==> job.value.jobId == jobId
    {
      if jobId in jobs {
        job := Some(jobs[jobId]);
      } else {
        job := None;
      }
    }
  }
}
