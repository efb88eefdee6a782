/** What every operation writes into a job row, field by field. */
module JobRows {
  import opened Basics
  import opened StoreTypes
  import opened IntakeSpec
  import opened IntakeProofs
  import opened StoreSpec
  import opened PublishProofs
  import opened StoreRuns
  import opened JobTheorems
  import Chunker

  /** The first 512 characters of the error. */
  function Recorded(error: string): string {
    if |error| <= 512 then error else error[..512]
  }

  /** The row after an operation, unless it stays as it was. */
  predicate RowWritten(job: Job, job': Job, op: Op) {
    match op
    case EnqueueOp(_, _, _, _) => false
    case ClaimOp(now) =>
      && CanStart(job, now)
      && job' == job.(status := Processing, attempts := job.attempts + 1, nextAttemptAt := None,
                      leaseExpiresAt := Some(now + 30_000), updatedAt := now)
    case ProcessOp(jobId, _, _, _, _, _, _, now) =>
      && job.status == Processing && job.id == jobId
      && job' == job.(status := Succeeded, lastError := None, nextAttemptAt := None, leaseExpiresAt := None,
                      updatedAt := now)
    case FailOp(jobId, error, now) =>
      && job.status == Processing && job.id == jobId && !Chunker.IsBlank(error)
      && var failed := job.(lastError := Some(Recorded(error)), leaseExpiresAt := None, updatedAt := now);
         job' == if job.attempts >= 3 then failed.(status := DeadLetter, nextAttemptAt := None)
                 else failed.(status := RetryWait,
                              nextAttemptAt := Some(now + if job.attempts == 2 then 2_000 else 1_000))
    case OwnerRetryOp(jobId, scope, now) =>
      && job.status == DeadLetter && job.id == jobId && job.scope == scope
      && job' == job.(status := Queued, attempts := 0, lastError := None, nextAttemptAt := Some(now),
                      leaseExpiresAt := None, updatedAt := now)
    case RecoverOp(now) =>
      && job.status == Processing
      && job' == job.(status := Queued, nextAttemptAt := Some(now), leaseExpiresAt := None, updatedAt := now)
    case _ => false
  }

  /** In every reachable state, every operation leaves a job row alone or writes the row spelled out above. */
  lemma JobRowWritten(s: Store, op: Op, j: Uuid)
    requires StoreValid(s) && j in s.intake.jobs
    ensures j in Apply(s, op).intake.jobs
    ensures var (job, job') := (s.intake.jobs[j], Apply(s, op).intake.jobs[j]); job' == job || RowWritten(job, job', op)
  {
    hide StoreValid, RowWritten, IntakeAfter, IntakeValid;
    ValidRecords(s);
    RecordsHaveIntake(s);
    if IsIntakeOp(s.intake, op) {
      IntakeStepIs(s, op);
      IntakeRowWritten(s.intake, op, j);
    } else if op.ProcessOp? {
      var chunkCount := ProcessSucceedsOrNot(s, op);
      if Apply(s, op).intake != s.intake { SucceededRow(s.intake, op, chunkCount, j); }
    } else {
      RestFrame(s, op);
    }
  }

  lemma SucceededRow(t: Intake, op: Op, chunkCount: nat, j: Uuid)
    requires IntakeValid(t) && op.ProcessOp? && op.jobId in t.jobs && t.jobs[op.jobId].status == Processing
    requires t.jobs[op.jobId].id == op.jobId && t.jobs[op.jobId].documentId in t.documents && j in t.jobs
    ensures var jobs := Succeed(t, op.jobId, chunkCount, op.now).jobs;
      j in jobs && (jobs[j] == t.jobs[j] || RowWritten(t.jobs[j], jobs[j], op))
  {
    hide IntakeValid;
  }

  lemma IntakeRowWritten(t: Intake, op: Op, j: Uuid)
    requires IntakeValid(t) && IsIntakeOp(t, op) && j in t.jobs
    ensures var jobs := IntakeAfter(t, op).jobs;
      j in jobs && (jobs[j] == t.jobs[j] || RowWritten(t.jobs[j], jobs[j], op))
  {
    hide IntakeValid, ValidateDocument, StatusFields, CanStart, Claim, Fail, OwnerRetry;
    JobKnowsItself(t, j);
    match op
    case EnqueueOp(req, jobId, documentId, now) =>
    case ClaimOp(now) => ClaimedRow(t, op, j);
    case FailOp(jobId, error, now) => FailRow(t, op, j);
    case OwnerRetryOp(jobId, scope, now) => RetriedRow(t, op, j);
    case RecoverOp(now) =>
  }

  lemma ClaimedRow(t: Intake, op: Op, j: Uuid)
    requires IntakeValid(t) && op.ClaimOp? && j in t.jobs
    ensures var jobs := Claim(t, op.now).0.jobs;
      j in jobs && (jobs[j] == t.jobs[j] || RowWritten(t.jobs[j], jobs[j], op))
  {
    hide IntakeValid, IsEligible, CanStart;
    ClaimKeepsValid(t, op.now);
    if EligibleJobs(t, op.now) != {} { JobKnowsItself(t, Least(EligibleJobs(t, op.now))); }
  }

  lemma FailRow(t: Intake, op: Op, j: Uuid)
    requires IntakeValid(t) && op.FailOp? && j in t.jobs
    ensures var jobs := Fail(t, op.jobId, op.error, op.now).0.jobs;
      j in jobs && (jobs[j] == t.jobs[j] || RowWritten(t.jobs[j], jobs[j], op))
  {
    hide IntakeValid, StatusFields, Failed, Chunker.IsBlank;
    FailKeepsValid(t, op.jobId, op.error, op.now);
    if op.jobId in t.jobs && t.jobs[op.jobId].status == Processing {
      JobKnowsItself(t, op.jobId);
      FailedRow(t.jobs[op.jobId], op.error, op.now);
    }
  }

  lemma RetriedRow(t: Intake, op: Op, j: Uuid)
    requires IntakeValid(t) && op.OwnerRetryOp? && j in t.jobs
    ensures var jobs := OwnerRetry(t, op.jobId, op.scope, op.now).0.jobs;
      j in jobs && (jobs[j] == t.jobs[j] || RowWritten(t.jobs[j], jobs[j], op))
  {
    hide IntakeValid, StatusFields;
    if op.jobId in t.jobs { JobKnowsItself(t, op.jobId); }
  }

  lemma FailedRow(job: Job, error: string, now: nat)
    requires StatusFields(job) && job.status == Processing
    ensures Failed(job, error, now)
         == var failed := job.(lastError := Some(Recorded(error)), leaseExpiresAt := None, updatedAt := now);
            if job.attempts >= 3 then failed.(status := DeadLetter, nextAttemptAt := None)
            else failed.(status := RetryWait,
                         nextAttemptAt := Some(now + if job.attempts == 2 then 2_000 else 1_000))
  {
    assert job.attempts < 3 ==> job.attempts == 1 || job.attempts == 2;
    assert Power2(0) == 1 && Power2(1) == 2 * Power2(0);
  }
}
