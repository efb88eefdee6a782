/** The job state machine over whole runs: allowed transitions, attempt bounds, back-off and replays. */
module JobTheorems {
  import opened Basics
  import opened GraphProjection
  import opened StoreTypes
  import opened IntakeSpec
  import opened IntakeProofs
  import opened StoreSpec
  import opened PrepareProofs
  import opened PublishProofs
  import opened CommitProofs
  import opened StoreRuns
  import opened StoreTheorems
  import Chunker

  // ------------------------------------------------- which steps a job can take

  /** The edges of the state machine, with what happens to the attempt counter. */
  predicate JobStep(job: Job, job': Job) {
    || job' == job
    || ((job.status == Queued || job.status == RetryWait) && job'.status == Processing
        && job'.attempts == job.attempts + 1)
    || (job.status == Processing && job'.attempts == job.attempts
        && (job'.status == Succeeded || job'.status == Queued
            || (job'.status == RetryWait && job.attempts < MAX_INGESTION_ATTEMPTS)
            || (job'.status == DeadLetter && job.attempts >= MAX_INGESTION_ATTEMPTS)))
    || (job.status == DeadLetter && job'.status == Queued && job'.attempts == 0)
  }

  /** An owner retry that is accepted. */
  predicate ResetsJob(t: Intake, op: Op, j: Uuid) {
    op.OwnerRetryOp? && op.jobId == j && j in t.jobs && t.jobs[j].scope == op.scope && t.jobs[j].status == DeadLetter
  }

  /** What one operation does to one job. */
  predicate JobMoves(t: Intake, t': Intake, op: Op, j: Uuid) {
    && j in t.jobs && j in t'.jobs
    && JobStep(t.jobs[j], t'.jobs[j])
    && (t.jobs[j].status == DeadLetter && t'.jobs[j].status == Queued ==> ResetsJob(t, op, j))
    && (t.jobs[j].status == Processing && t'.jobs[j].status == Queued ==> op.RecoverOp?)
    && (t'.jobs[j].status == RetryWait && t'.jobs[j] != t.jobs[j] ==>
          t'.jobs[j].nextAttemptAt == Some(t'.jobs[j].updatedAt + BackoffMs(t'.jobs[j].attempts)))
    && (t.jobs[j].status != Processing && t'.jobs[j].status == Processing ==> op.ClaimOp?)
    && (t.jobs[j].status == RetryWait && t'.jobs[j].status == Processing ==>
          t.jobs[j].nextAttemptAt.Some? && t.jobs[j].nextAttemptAt.value <= op.now)
  }

  lemma NothingMoves(t: Intake, op: Op, j: Uuid)
    requires j in t.jobs
    ensures JobMoves(t, t, op, j)
  {
    hide BackoffMs;
  }

  lemma SetJobMoves(t: Intake, job: Job, op: Op, j: Uuid)
    requires IntakeValid(t) && j in t.jobs && job.documentId in t.documents && job.id in t.jobs
    requires job.id == j ==> JobMoves(t, t.(jobs := t.jobs[j := job]), op, j)
    ensures JobMoves(t, SetJob(t, job), op, j)
  {
    hide IntakeValid, BackoffMs;
  }

  lemma JobKnowsItself(t: Intake, j: Uuid)
    requires IntakeValid(t) && j in t.jobs
    ensures t.jobs[j].id == j && StatusFields(t.jobs[j]) && t.jobs[j].documentId in t.documents
  {
    hide DedupExact, IdempotencyExact, Chunker.IsBlank;
    assert JobLinked(t.documents, t.jobs[j], j) && JobWellFormed(t.jobs[j], t.payloads[j]);
  }

  lemma IntakeMoves(t: Intake, op: Op, j: Uuid)
    requires IntakeValid(t) && IsIntakeOp(t, op) && j in t.jobs
    ensures JobMoves(t, IntakeAfter(t, op), op, j)
    ensures ResetsJob(t, op, j) ==>
              IntakeAfter(t, op).jobs[j].attempts == 0 && IntakeAfter(t, op).jobs[j].status == Queued
  {
    hide IntakeValid, BackoffMs, ValidateDocument, Chunker.IsBlank, Enqueue, Claim, Fail, OwnerRetry, SetJob,
         EligibleJobs, StatusFields;
    JobKnowsItself(t, j);
    match op
    case EnqueueOp(req, jobId, documentId, now) => EnqueueMoves(t, op, j);
    case ClaimOp(now) => ClaimMoves(t, op, j);
    case FailOp(jobId, error, now) => FailMoves(t, op, j);
    case OwnerRetryOp(jobId, scope, now) => RetryMoves(t, op, j);
    case RecoverOp(now) =>
  }

  lemma EnqueueMoves(t: Intake, op: Op, j: Uuid)
    requires op.EnqueueOp? && op.jobId !in t.jobs && op.documentId !in t.documents && j in t.jobs
    ensures JobMoves(t, IntakeAfter(t, op), op, j)
  {
    hide BackoffMs, ValidateDocument;
  }

  lemma ClaimMoves(t: Intake, op: Op, j: Uuid)
    requires IntakeValid(t) && op.ClaimOp? && j in t.jobs
    ensures JobMoves(t, IntakeAfter(t, op), op, j)
  {
    hide IntakeValid, BackoffMs, IsEligible, StatusFields;
    ClaimKeepsValid(t, op.now);
    if EligibleJobs(t, op.now) != {} {
      var k := Least(EligibleJobs(t, op.now));
      JobKnowsItself(t, k);
      StartIsDue(t.jobs[k], op.now);
      SetJobMoves(t, Leased(t.jobs[k], op.now), op, j);
    }
  }

  lemma StartIsDue(job: Job, now: nat)
    requires IsEligible(job, now)
    ensures job.status == Queued || job.status == RetryWait
    ensures job.status == RetryWait ==> job.nextAttemptAt.Some? && job.nextAttemptAt.value <= now
  {
  }

  lemma FailMoves(t: Intake, op: Op, j: Uuid)
    requires IntakeValid(t) && op.FailOp? && j in t.jobs
    ensures JobMoves(t, IntakeAfter(t, op), op, j)
  {
    hide IntakeValid, Chunker.IsBlank, JobMoves, SetJob, Failed;
    if Fail(t, op.jobId, op.error, op.now).1.Ok? {
      JobKnowsItself(t, op.jobId);
      FailedMoves(t, op, j);
      SetJobMoves(t, Failed(t.jobs[op.jobId], op.error, op.now), op, j);
    } else {
      NothingMoves(t, op, j);
    }
  }

  lemma FailedMoves(t: Intake, op: Op, j: Uuid)
    requires op.FailOp? && j in t.jobs && op.jobId in t.jobs && t.jobs[op.jobId].id == op.jobId
    requires t.jobs[op.jobId].status == Processing
    ensures var job := Failed(t.jobs[op.jobId], op.error, op.now);
      && job.id == op.jobId && job.documentId == t.jobs[op.jobId].documentId
      && (job.id == j ==> JobMoves(t, t.(jobs := t.jobs[j := job]), op, j))
  {
    hide BackoffMs;
  }

  lemma RetryMoves(t: Intake, op: Op, j: Uuid)
    requires IntakeValid(t) && op.OwnerRetryOp? && j in t.jobs
    ensures JobMoves(t, IntakeAfter(t, op), op, j)
    ensures ResetsJob(t, op, j) ==>
              IntakeAfter(t, op).jobs[j].attempts == 0 && IntakeAfter(t, op).jobs[j].status == Queued
  {
    hide IntakeValid, BackoffMs, StatusFields;
    OwnerRetryKeepsValid(t, op.jobId, op.scope, op.now);
    if op.jobId in t.jobs && t.jobs[op.jobId].scope == op.scope && t.jobs[op.jobId].status == DeadLetter {
      JobKnowsItself(t, op.jobId);
      SetJobMoves(t, Requeued(t.jobs[op.jobId], op.now).(attempts := 0, lastError := None), op, j);
    }
  }

  /** Processing changes the intake tables only in its final transaction. */
  lemma ProcessIntake(s: Store, d: Draft, generation: Uuid, steps: nat, torn: map<Uuid, string>, spared: set<TextPath>,
                      now: nat)
    requires StoreValid(s) && DraftFresh(s, d)
    ensures DraftOfJob(s.intake, d) && s.intake.jobs[d.jobId].documentId in s.intake.documents
    ensures Process(s, d, generation, steps, torn, spared, now).intake
         == if steps < 5 then s.intake else Succeed(s.intake, d.jobId, |d.chunks|, now)
  {
    hide StoreValid, DraftOfJob, LiveIn, KeyedBy, UniqueIds, UniqueKeys, DraftStored, Succeed, Publish, Prepare;
    DraftDocument(s.intake, d);
    if steps > 0 {
      PrepareKeepsValid(s, d);
      PrepareFrame(s, d);
      ValidIsUnique(Prepare(s, d));
      PublishIntake(Prepare(s, d), d, generation, steps, torn, spared, now);
    }
  }

  lemma PublishIntake(s: Store, d: Draft, generation: Uuid, steps: nat, torn: map<Uuid, string>, spared: set<TextPath>,
                      now: nat)
    requires UniqueIds(s.chunks) && UniqueKeys(s.vectors.manifests) && DraftStored(s, d)
    ensures d.jobId in s.intake.jobs && s.intake.jobs[d.jobId].documentId in s.intake.documents
    ensures Publish(s, d, generation, steps, torn, spared, now).intake
         == if steps < 5 then s.intake else Succeed(s.intake, d.jobId, |d.chunks|, now)
  {
    hide LiveIn, KeyedBy, UniqueIds, UniqueKeys, DraftKeys, DraftTexts, Succeed, Materialize, DraftOfJob;
    DraftDocument(s.intake, d);
  }

  /** Processing leaves the intake tables alone, or settles the leased job it was given. */
  lemma ProcessSucceedsOrNot(s: Store, op: Op) returns (chunkCount: nat)
    requires StoreValid(s) && op.ProcessOp?
    ensures
      || Apply(s, op).intake == s.intake
      || (&& op.jobId in s.intake.jobs && s.intake.jobs[op.jobId].status == Processing
          && s.intake.jobs[op.jobId].id == op.jobId && s.intake.jobs[op.jobId].documentId in s.intake.documents
          && Apply(s, op).intake == Succeed(s.intake, op.jobId, chunkCount, op.now))
  {
    hide StoreValid, CanProcess, Process, DraftFresh, ChunksOf, Succeed;
    chunkCount := 0;
    if CanProcess(s, op.jobId, op.ids, op.generation, op.profile) {
      CanProcessShape(s, op);
      var d := DraftOf(s, op.jobId, op.ids, op.profile);
      CanProcessIsFresh(s, op.jobId, op.ids, op.generation, op.profile);
      ProcessIntake(s, d, op.generation, op.steps, op.torn, op.spared, op.now);
      ValidRecords(s);
      RecordsHaveIntake(s);
      JobKnowsItself(s.intake, op.jobId);
      chunkCount := |d.chunks|;
    }
  }

  lemma ProcessMoves(s: Store, op: Op, j: Uuid)
    requires StoreValid(s) && op.ProcessOp? && j in s.intake.jobs
    ensures JobMoves(s.intake, Apply(s, op).intake, op, j)
    ensures Apply(s, op).intake.jobs.Keys == s.intake.jobs.Keys
  {
    hide StoreValid, Apply, Succeed, JobMoves;
    var chunkCount := ProcessSucceedsOrNot(s, op);
    NothingMoves(s.intake, op, j);
    if Apply(s, op).intake != s.intake { SucceedMoves(s.intake, op.jobId, chunkCount, op, j); }
  }

  lemma CanProcessShape(s: Store, op: Op)
    requires op.ProcessOp? && CanProcess(s, op.jobId, op.ids, op.generation, op.profile)
    ensures op.jobId in s.intake.jobs && op.jobId in s.intake.payloads && s.intake.jobs[op.jobId].status == Processing
    ensures |op.ids| == |ChunksOf(s.intake.payloads[op.jobId])|
  {
  }

  lemma SucceedMoves(t: Intake, jobId: Uuid, chunkCount: nat, op: Op, j: Uuid)
    requires jobId in t.jobs && t.jobs[jobId].status == Processing && t.jobs[jobId].id == jobId
    requires t.jobs[jobId].documentId in t.documents && op.ProcessOp? && j in t.jobs
    ensures JobMoves(t, Succeed(t, jobId, chunkCount, op.now), op, j)
    ensures Succeed(t, jobId, chunkCount, op.now).jobs.Keys == t.jobs.Keys
  {
    hide BackoffMs;
  }

  /** In every reachable state, every operation moves every job along an edge of the state machine. */
  lemma JobTransitions(s: Store, op: Op, j: Uuid)
    requires StoreValid(s) && j in s.intake.jobs
    ensures JobMoves(s.intake, Apply(s, op).intake, op, j)
    ensures ResetsJob(s.intake, op, j) ==> Apply(s, op).intake.jobs[j].attempts == 0
  {
    hide StoreValid, JobMoves, IntakeAfter, IntakeValid;
    if IsIntakeOp(s.intake, op) {
      IntakeStepIs(s, op);
      IntakeMoves(s.intake, op, j);
    } else if op.ProcessOp? {
      ProcessMoves(s, op, j);
    } else {
      RestFrame(s, op);
      Unmoved(s.intake, op, j);
    }
  }

  lemma Unmoved(t: Intake, op: Op, j: Uuid)
    requires j in t.jobs
    ensures JobMoves(t, t, op, j)
  {
    hide BackoffMs;
  }

  lemma IntakeStepIs(s: Store, op: Op)
    requires StoreValid(s) && IsIntakeOp(s.intake, op)
    ensures IntakeValid(s.intake) && Apply(s, op).intake == IntakeAfter(s.intake, op)
  {
    hide StoreValid, IntakeValid, Enqueue, Claim, Fail, OwnerRetry, Recover;
    ValidRecords(s);
    RecordsHaveIntake(s);
  }

  lemma RestFrame(s: Store, op: Op)
    requires StoreValid(s) && !IsIntakeOp(s.intake, op) && !op.ProcessOp?
    ensures Apply(s, op).intake == s.intake
  {
    hide StoreValid;
    if IsReconcile(op) { ReconcileFrame(s, op); }
  }

  /** Only admission creates a job, queued and never attempted. */
  lemma NewJobsAreFresh(s: Store, op: Op, j: Uuid)
    requires StoreValid(s) && j !in s.intake.jobs && j in Apply(s, op).intake.jobs
    ensures op.EnqueueOp? && op.jobId == j
    ensures Apply(s, op).intake.jobs[j].status == Queued && Apply(s, op).intake.jobs[j].attempts == 0
  {
    hide StoreValid, IntakeValid, ValidateDocument;
    if IsIntakeOp(s.intake, op) {
      IntakeStepIs(s, op);
      NewIntakeJobs(s.intake, op, j);
    } else if op.ProcessOp? {
      ProcessKeepsJobs(s, op);
    } else {
      RestFrame(s, op);
    }
  }

  lemma ProcessKeepsJobs(s: Store, op: Op)
    requires StoreValid(s) && op.ProcessOp?
    ensures Apply(s, op).intake.jobs.Keys == s.intake.jobs.Keys
  {
    hide StoreValid, CanProcess, JobMoves;
    if CanProcess(s, op.jobId, op.ids, op.generation, op.profile) {
      CanProcessShape(s, op);
      ProcessMoves(s, op, op.jobId);
    }
  }

  lemma NewIntakeJobs(t: Intake, op: Op, j: Uuid)
    requires IntakeValid(t) && IsIntakeOp(t, op) && j !in t.jobs && j in IntakeAfter(t, op).jobs
    ensures op.EnqueueOp? && op.jobId == j
    ensures IntakeAfter(t, op).jobs[j].status == Queued && IntakeAfter(t, op).jobs[j].attempts == 0
  {
    hide IntakeValid, ValidateDocument, Chunker.IsBlank, BackoffMs;
    match op
    case ClaimOp(now) =>
      ClaimKeepsValid(t, now);
    case FailOp(jobId, _, _) => if jobId in t.jobs { JobKnowsItself(t, jobId); }
    case OwnerRetryOp(jobId, _, _) => if jobId in t.jobs { JobKnowsItself(t, jobId); }
    case _ =>
  }

  // ------------------------------------------------- attempts and back-off over runs

  /** Boot recoveries since a job was enqueued or handed back by its owner. */
  ghost function Tally(t: Intake, op: Op, j: Uuid, recoveries: nat): nat {
    if j !in t.jobs || ResetsJob(t, op, j) then 0 else if op.RecoverOp? then recoveries + 1 else recoveries
  }

  ghost function Recoveries(s: Store, ops: seq<Op>, j: Uuid, before: nat): nat
    requires StoreValid(s)
    decreases |ops|
  {
    if ops == [] then before
    else
      ApplyKeepsValid(s, ops[0]);
      Recoveries(Apply(s, ops[0]), ops[1..], j, Tally(s.intake, ops[0], j, before))
  }

  /** What holds of a job after `recoveries` boot recoveries. */
  predicate JobBounded(job: Job, recoveries: nat) {
    && job.attempts <= 3 + recoveries
    && (job.status == Queued || job.status == RetryWait ==> job.attempts <= 2 + recoveries)
    && (job.status == RetryWait ==>
          && (job.attempts == 1 || job.attempts == 2)
          && job.nextAttemptAt == Some(job.updatedAt + 1_000 * job.attempts))
  }

  ghost predicate Bounded(t: Intake, j: Uuid, recoveries: nat) {
    j in t.jobs ==> JobBounded(t.jobs[j], recoveries)
  }

  lemma ShortBackoff()
    ensures BackoffMs(1) == 1_000 && BackoffMs(2) == 2_000
  {
    assert Power2(0) == 1 && Power2(1) == 2;
  }

  lemma StepKeepsBounded(s: Store, op: Op, j: Uuid, recoveries: nat)
    requires StoreValid(s) && Bounded(s.intake, j, recoveries)
    ensures Bounded(Apply(s, op).intake, j, Tally(s.intake, op, j, recoveries))
  {
    hide StoreValid, Apply, IntakeValid, BackoffMs;
    if j in Apply(s, op).intake.jobs {
      if j in s.intake.jobs {
        JobTransitions(s, op, j);
        ApplyKeepsValid(s, op);
        ValidRecords(Apply(s, op));
        RecordsHaveIntake(Apply(s, op));
        JobKnowsItself(Apply(s, op).intake, j);
        ShortBackoff();
      } else {
        NewJobsAreFresh(s, op, j);
      }
    }
  }

  lemma {:induction false} RunKeepsBounded(s: Store, ops: seq<Op>, j: Uuid, before: nat)
    requires StoreValid(s) && Bounded(s.intake, j, before)
    ensures Bounded(Run(s, ops).intake, j, Recoveries(s, ops, j, before))
    decreases |ops|
  {
    hide StoreValid, Apply, Bounded, Tally;
    if ops != [] {
      ApplyKeepsValid(s, ops[0]);
      StepKeepsBounded(s, ops[0], j, before);
      RunKeepsBounded(Apply(s, ops[0]), ops[1..], j, Tally(s.intake, ops[0], j, before));
    }
  }

  /**
   * Retry bound. After any run from an empty store, a job has been attempted at most three times plus
   * once for each boot recovery since its enqueue or owner retry, and a scheduled retry waits exactly
   * one second after a first failure and two after a second.
   */
  lemma AttemptsBounded(ops: seq<Op>, j: Uuid)
    requires j in Reached(ops).intake.jobs
    ensures StoreValid(EMPTY_STORE)
    ensures JobBounded(Reached(ops).intake.jobs[j], Recoveries(EMPTY_STORE, ops, j, 0))
  {
    hide StoreValid, JobBounded;
    EmptyIsValid();
    RunKeepsBounded(EMPTY_STORE, ops, j, 0);
  }

  /** Terminal success. Once a job has succeeded, no run ever changes it. */
  lemma {:induction false} SucceededForever(s: Store, ops: seq<Op>, j: Uuid)
    requires StoreValid(s) && j in s.intake.jobs && s.intake.jobs[j].status == Succeeded
    ensures j in Run(s, ops).intake.jobs && Run(s, ops).intake.jobs[j] == s.intake.jobs[j]
    decreases |ops|
  {
    hide StoreValid, Apply, BackoffMs;
    if ops != [] {
      ApplyKeepsValid(s, ops[0]);
      JobTransitions(s, ops[0], j);
      SucceededForever(Apply(s, ops[0]), ops[1..], j);
    }
  }

  /**
   * Exactly once, over runs: after a request created a job, any later request with its idempotency
   * key, or with its content and no recorded key, is answered with that job and changes nothing.
   */
  lemma ReplayedAfterAnyRun(s: Store, req: NewDocument, jobId: Uuid, documentId: Uuid, now: nat, ops: seq<Op>,
                            again: NewDocument, jobId': Uuid, documentId': Uuid, now': nat)
    requires StoreValid(s) && jobId !in s.intake.jobs && documentId !in s.intake.documents
    requires ValidateDocument(req).None? && ExistingJob(s.intake, req).None?
    requires ValidateDocument(again).None? && again.scope == req.scope
    ensures var created := Apply(s, EnqueueOp(req, jobId, documentId, now));
      && StoreValid(created)
      && var later := Run(created, ops).intake;
         ((again.idempotencyKey.Some? && again.idempotencyKey == req.idempotencyKey)
          || (again.content == req.content
              && (again.idempotencyKey.None?
                  || IdempotencyKeyOf(again.scope, again.idempotencyKey.value) !in later.idempotency)))
         ==> var (later', r) := Enqueue(later, again, jobId', documentId', now');
             later' == later && r.Ok? && r.value.deduplicated && r.value.job.id == jobId
              && r.value.document.id == documentId
  {
    hide StoreValid, Run, ValidateDocument, IntakeValid, Extends, ExistingJob;
    var op := EnqueueOp(req, jobId, documentId, now);
    ApplyKeepsValid(s, op);
    var created := Apply(s, op);
    IntakeStepIs(s, op);
    RunExtends(created, ops);
    var end := Run(created, ops);
    ValidRecords(end);
    RecordsHaveIntake(end);
    if (again.idempotencyKey.Some? && again.idempotencyKey == req.idempotencyKey)
       || (again.content == req.content
           && (again.idempotencyKey.None?
               || IdempotencyKeyOf(again.scope, again.idempotencyKey.value) !in end.intake.idempotency)) {
      ReplayReturnsSameJob(s.intake, req, jobId, documentId, now, end.intake, again, jobId', documentId', now');
    }
  }

  /**
   * The exact condition under which a repeated idempotency key gets the first job, over runs: the first
   * request found its key on record or created its job, or by the time of the repetition the key is
   * still unrecorded and the content is the same.
   */
  lemma RepeatedKeyAfterAnyRun(s: Store, req: NewDocument, jobId: Uuid, documentId: Uuid, now: nat, ops: seq<Op>,
                               again: NewDocument, jobId': Uuid, documentId': Uuid, now': nat)
    requires StoreValid(s) && jobId !in s.intake.jobs && documentId !in s.intake.documents
    requires ValidateDocument(req).None? && ValidateDocument(again).None?
    requires again.scope == req.scope && req.idempotencyKey.Some? && again.idempotencyKey == req.idempotencyKey
    ensures var k := IdempotencyKeyOf(req.scope, req.idempotencyKey.value);
      var first := Enqueue(s.intake, req, jobId, documentId, now).1;
      var after := Apply(s, EnqueueOp(req, jobId, documentId, now));
      && StoreValid(after)
      && var later := Run(after, ops).intake;
         var second := Enqueue(later, again, jobId', documentId', now').1;
         && first.Ok? && second.Ok?
         && (jobId' !in later.jobs ==>
               (second.value.job.id == first.value.job.id <==>
                  || k in s.intake.idempotency || DedupKeyOf(req) !in s.intake.dedup
                  || (k !in later.idempotency && again.content == req.content)))
  {
    hide StoreValid, Run, ValidateDocument, IntakeValid, Extends, ExistingJob, Enqueue, Apply;
    var op := EnqueueOp(req, jobId, documentId, now);
    ApplyKeepsValid(s, op);
    IntakeStepIs(s, op);
    var after := Apply(s, op);
    RunExtends(after, ops);
    var end := Run(after, ops);
    ValidRecords(end);
    RecordsHaveIntake(end);
    EnqueueAnswers(s.intake, req, jobId, documentId, now);
    EnqueueAnswers(end.intake, again, jobId', documentId', now');
    if jobId' !in end.intake.jobs {
      RepeatedKeyReturnsFirstJob(s.intake, req, jobId, documentId, now, end.intake, again, jobId', documentId', now');
    }
  }

  /** A key that is on record answers with its job in every later state, whatever content comes with it. */
  lemma KeyAnswersForever(s: Store, ops: seq<Op>, again: NewDocument, jobId: Uuid, documentId: Uuid, now: nat)
    requires StoreValid(s) && ValidateDocument(again).None? && again.idempotencyKey.Some?
    requires IdempotencyKeyOf(again.scope, again.idempotencyKey.value) in s.intake.idempotency
    ensures var (later', r) := Enqueue(Run(s, ops).intake, again, jobId, documentId, now);
      && later' == Run(s, ops).intake && r.Ok?
      && r.value.job.id == s.intake.idempotency[IdempotencyKeyOf(again.scope, again.idempotencyKey.value)]
  {
    hide StoreValid, Run, ValidateDocument, IntakeValid;
    RunExtends(s, ops);
    ValidRecords(Run(s, ops));
    RecordsHaveIntake(Run(s, ops));
    FoundJobIsNamed(Run(s, ops).intake, again);
  }
}
