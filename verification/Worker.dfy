/** The ingestion worker: claim, process, record a failure, over and over. */
module Worker {
  import opened Basics
  import opened StoreTypes
  import opened IntakeSpec
  import opened IntakeProofs
  import opened StoreSpec
  import opened PublishProofs
  import opened StoreRuns
  import opened JobTheorems
  import opened HangarStoreModel
  import Chunker

  /**
   * What the environment contributes to one turn of the loop: clocks, fresh ids, and how the disk
   * behaves, down to the stale directories (`spared`) that an interrupted cleanup leaves.
   */
  datatype Turn = Turn(claimAt: nat, ids: seq<Uuid>, generation: Uuid, steps: nat, torn: map<Uuid, string>,
                       failing: set<TextPath>, spared: set<TextPath>, processAt: nat, error: string, failAt: nat)

  ghost predicate Productive(s: Store, turn: Turn) {
    EligibleJobs(s.intake, turn.claimAt) != {}
  }

  function TurnOps(j: Uuid, turn: Turn, profile: Profile): seq<Op> {
    [ClaimOp(turn.claimAt),
     ProcessOp(j, turn.ids, turn.generation, profile, turn.steps, turn.torn, turn.spared, turn.processAt),
     FailOp(j, turn.error, turn.failAt)]
  }

  /** One turn; recording a failure has no effect after a success. */
  ghost function AfterTurn(s: Store, turn: Turn, profile: Profile): (s': Store)
    requires StoreValid(s)
    ensures StoreValid(s')
  {
    if Productive(s, turn) then Run(s, TurnOps(Least(EligibleJobs(s.intake, turn.claimAt)), turn, profile)) else s
  }

  ghost function AfterTurns(s: Store, turns: seq<Turn>, profile: Profile): (s': Store)
    requires StoreValid(s)
    ensures StoreValid(s')
    decreases |turns|
  {
    if turns == [] then s else AfterTurns(AfterTurn(s, turns[0], profile), turns[1..], profile)
  }

  /** How many turns of a run claim a job. */
  ghost function Claims(s: Store, turns: seq<Turn>, profile: Profile): nat
    requires StoreValid(s)
    decreases |turns|
  {
    if turns == [] then 0
    else (if Productive(s, turns[0]) then 1 else 0) + Claims(AfterTurn(s, turns[0], profile), turns[1..], profile)
  }

  // ------------------------------------------------- the work that is left

  predicate IsSettled(job: Job) {
    job.status == Succeeded || job.status == DeadLetter
  }

  /** The claims a job can still absorb. */
  function Weight(job: Job): nat {
    if IsSettled(job) then 0
    else if job.attempts >= MAX_INGESTION_ATTEMPTS then 1 else MAX_INGESTION_ATTEMPTS - job.attempts
  }

  function Weights(jobs: map<Uuid, Job>): map<Uuid, nat> {
    map j | j in jobs :: Weight(jobs[j])
  }

  ghost function Total(jobs: map<Uuid, Job>): nat {
    SumOf(Weights(jobs))
  }

  lemma TotalUpdate(jobs: map<Uuid, Job>, k: Uuid, job: Job)
    requires k in jobs
    ensures Total(jobs[k := job]) + Weight(jobs[k]) == Total(jobs) + Weight(job)
  {
    hide Weight;
    assert Weights(jobs[k := job]) == Weights(jobs)[k := Weight(job)];
    SumUpdate(Weights(jobs), k, Weight(job));
    SumWithout(Weights(jobs), k);
  }

  // ------------------------------------------------- one turn

  ghost predicate NoneLeased(t: Intake) {
    forall j :: j in t.jobs ==> t.jobs[j].status != Processing
  }

  lemma ProcessTouches(s: Store, op: Op)
    requires StoreValid(s) && op.ProcessOp?
    ensures var jobs, jobs' := s.intake.jobs, Apply(s, op).intake.jobs;
      jobs' == jobs || (op.jobId in jobs && jobs[op.jobId].status == Processing
                        && jobs' == jobs[op.jobId := SucceededJob(jobs[op.jobId], op.now)])
  {
    hide StoreValid, Apply;
    var chunkCount := ProcessSucceedsOrNot(s, op);
  }

  lemma ClaimTouches(s: Store, turn: Turn)
    requires StoreValid(s) && Productive(s, turn)
    ensures var j := Least(EligibleJobs(s.intake, turn.claimAt));
      && Apply(s, ClaimOp(turn.claimAt)).intake.jobs == s.intake.jobs[j := Leased(s.intake.jobs[j], turn.claimAt)]
      && (s.intake.jobs[j].status == Queued || s.intake.jobs[j].status == RetryWait)
  {
    hide StoreValid, IntakeValid, IsEligible;
    IntakeStepIs(s, ClaimOp(turn.claimAt));
    ClaimKeepsValid(s.intake, turn.claimAt);
    var j := Least(EligibleJobs(s.intake, turn.claimAt));
    JobKnowsItself(s.intake, j);
    EligibleIsOpen(s.intake.jobs[j], turn.claimAt);
  }

  lemma FailTouches(s: Store, j: Uuid, error: string, now: nat)
    requires StoreValid(s) && !Chunker.IsBlank(error) && j in s.intake.jobs
    ensures Apply(s, FailOp(j, error, now)).intake.jobs ==
            if s.intake.jobs[j].status == Processing then s.intake.jobs[j := Failed(s.intake.jobs[j], error, now)]
            else s.intake.jobs
  {
    hide StoreValid, IntakeValid, Chunker.IsBlank, BackoffMs;
    IntakeStepIs(s, FailOp(j, error, now));
    FailKeepsValid(s.intake, j, error, now);
    JobKnowsItself(s.intake, j);
  }

  /** However an attempt ends, the job is unleased and has less work left than before the claim. */
  lemma AttemptUsesWork(job: Job, turn: Turn)
    requires job.status == Queued || job.status == RetryWait
    ensures var leased := Leased(job, turn.claimAt);
      var succeeded, failed := SucceededJob(leased, turn.processAt), Failed(leased, turn.error, turn.failAt);
      && leased.status == Processing && succeeded.status == Succeeded && failed.status != Processing
      && Weight(succeeded) < Weight(job) && Weight(failed) < Weight(job)
  {
    hide BackoffMs;
  }

  /** A turn that claims a job leaves it unleased and with less work than before. */
  lemma TurnTouches(s: Store, turn: Turn, profile: Profile)
    requires StoreValid(s) && Productive(s, turn) && !Chunker.IsBlank(turn.error)
    ensures var j := Least(EligibleJobs(s.intake, turn.claimAt));
      var jobs' := AfterTurn(s, turn, profile).intake.jobs;
      && j in jobs' && jobs' == s.intake.jobs[j := jobs'[j]]
      && jobs'[j].status != Processing && Weight(jobs'[j]) < Weight(s.intake.jobs[j])
  {
    hide StoreValid, Apply, Chunker.IsBlank, IsEligible, Leased, SucceededJob, Failed, Weight, Run;
    var j := Least(EligibleJobs(s.intake, turn.claimAt));
    var ops := TurnOps(j, turn, profile);
    ClaimTouches(s, turn);
    AttemptUsesWork(s.intake.jobs[j], turn);
    ApplyKeepsValid(s, ops[0]);
    var s1 := Apply(s, ops[0]);
    ProcessTouches(s1, ops[1]);
    ApplyKeepsValid(s1, ops[1]);
    var s2 := Apply(s1, ops[1]);
    FailTouches(s2, j, turn.error, turn.failAt);
    RunThree(s, ops);
  }

  lemma RunThree(s: Store, ops: seq<Op>)
    requires StoreValid(s) && |ops| == 3
    ensures StoreValid(Apply(s, ops[0])) && StoreValid(Apply(Apply(s, ops[0]), ops[1]))
    ensures Run(s, ops) == Apply(Apply(Apply(s, ops[0]), ops[1]), ops[2])
  {
    hide StoreValid, Apply;
    ApplyKeepsValid(s, ops[0]);
    var s1 := Apply(s, ops[0]);
    ApplyKeepsValid(s1, ops[1]);
    var s2 := Apply(s1, ops[1]);
    ApplyKeepsValid(s2, ops[2]);
    assert ops[1..][0] == ops[1] && ops[1..][1..][0] == ops[2] && ops[1..][1..][1..] == [];
    assert Run(s2, ops[1..][1..]) == Apply(s2, ops[2]);
    assert Run(s1, ops[1..]) == Run(s2, ops[1..][1..]);
  }

  // ------------------------------------------------- draining

  /** Every claim is paid for by work that was left: no queue can absorb claims forever. */
  lemma {:induction false} ClaimsArePaid(s: Store, turns: seq<Turn>, profile: Profile)
    requires StoreValid(s) && NoneLeased(s.intake)
    requires forall turn :: turn in turns ==> !Chunker.IsBlank(turn.error)
    ensures var end := AfterTurns(s, turns, profile);
      && NoneLeased(end.intake) && end.intake.jobs.Keys == s.intake.jobs.Keys
      && Claims(s, turns, profile) + Total(end.intake.jobs) <= Total(s.intake.jobs)
    decreases |turns|
  {
    hide StoreValid, Chunker.IsBlank, Weight, Total, Productive;
    if turns != [] {
      var next := AfterTurn(s, turns[0], profile);
      assert turns[0] in turns;
      if Productive(s, turns[0]) {
        TurnTouches(s, turns[0], profile);
        var j := Least(EligibleJobs(s.intake, turns[0].claimAt));
        TotalUpdate(s.intake.jobs, j, next.intake.jobs[j]);
        assert next.intake.jobs.Keys == s.intake.jobs.Keys;
      }
      ClaimsArePaid(next, turns[1..], profile);
    }
  }

  function OpenJobs(t: Intake): set<Uuid> {
    set j | j in t.jobs && !IsSettled(t.jobs[j])
  }

  ghost predicate AllSettled(t: Intake) {
    forall j :: j in t.jobs ==> IsSettled(t.jobs[j])
  }

  lemma {:induction false} TotalOfFresh(jobs: map<Uuid, Job>, open: set<Uuid>)
    requires open == set j | j in jobs && !IsSettled(jobs[j])
    requires forall j :: j in open ==> jobs[j].attempts == 0
    ensures Total(jobs) == 3 * |open|
    decreases |jobs|
  {
    if jobs == map[] {
      assert open == {} && Weights(jobs) == map[];
    } else {
      var j :| j in jobs;
      SmallerWithout(jobs, j);
      SumWithout(Weights(jobs), j);
      assert Weights(jobs) - {j} == Weights(jobs - {j});
      assert open - {j} == set k | k in jobs - {j} && !IsSettled((jobs - {j})[k]);
      TotalOfFresh(jobs - {j}, open - {j});
    }
  }

  lemma NothingLeft(jobs: map<Uuid, Job>, j: Uuid)
    requires Total(jobs) == 0 && j in jobs
    ensures IsSettled(jobs[j])
  {
    SumWithout(Weights(jobs), j);
  }

  /** The turn claims no earlier than any retry that is scheduled. */
  ghost predicate IsTimely(t: Intake, turn: Turn) {
    forall j :: j in t.jobs && t.jobs[j].status == RetryWait && t.jobs[j].nextAttemptAt.Some? ==>
      t.jobs[j].nextAttemptAt.value <= turn.claimAt
  }

  /** How many turns of a run are timely in the state they start from. */
  ghost function TimelyTurns(s: Store, turns: seq<Turn>, profile: Profile): nat
    requires StoreValid(s)
    decreases |turns|
  {
    if turns == [] then 0
    else
      (if IsTimely(s.intake, turns[0]) then 1 else 0)
      + TimelyTurns(AfterTurn(s, turns[0], profile), turns[1..], profile)
  }

  /** A timely turn finds a job unless all of them are settled. */
  lemma TimelyIsProductive(s: Store, turn: Turn)
    requires StoreValid(s) && NoneLeased(s.intake) && IsTimely(s.intake, turn)
    ensures Productive(s, turn) || (OpenJobs(s.intake) == {} && Total(s.intake.jobs) == 0)
  {
    hide RecordsValid, VectorsPublished, TextsPublished, GraphPublished, VectorFilesSound, IntakeValid, Total;
    if OpenJobs(s.intake) == {} {
      TotalOfFresh(s.intake.jobs, OpenJobs(s.intake));
    } else {
      var j :| j in OpenJobs(s.intake);
      ValidRecords(s);
      RecordsHaveIntake(s);
      JobKnowsItself(s.intake, j);
      assert j in EligibleJobs(s.intake, turn.claimAt);
    }
  }

  /** Every timely turn does some of the work that is left, until none is. */
  lemma {:induction false} TimelyTurnsWork(s: Store, turns: seq<Turn>, profile: Profile)
    requires StoreValid(s) && NoneLeased(s.intake)
    requires forall turn :: turn in turns ==> !Chunker.IsBlank(turn.error)
    ensures var left := Total(AfterTurns(s, turns, profile).intake.jobs);
      left == 0 || TimelyTurns(s, turns, profile) + left <= Total(s.intake.jobs)
    decreases |turns|
  {
    hide StoreValid, Chunker.IsBlank, Total, Productive, IsTimely, NoneLeased;
    if turns != [] {
      var next := AfterTurn(s, turns[0], profile);
      assert turns == [turns[0]] + turns[1..];
      ClaimsArePaid(s, turns, profile);
      ClaimsArePaid(s, [turns[0]], profile);
      OneTurn(s, turns[0], profile);
      if IsTimely(s.intake, turns[0]) { TimelyIsProductive(s, turns[0]); }
      TimelyTurnsWork(next, turns[1..], profile);
    }
  }

  lemma OneTurn(s: Store, turn: Turn, profile: Profile)
    requires StoreValid(s)
    ensures AfterTurns(s, [turn], profile) == AfterTurn(s, turn, profile)
    ensures Claims(s, [turn], profile) == if Productive(s, turn) then 1 else 0
  {
    hide StoreValid, Productive;
    assert [turn][1..] == [];
  }

  /**
   * Draining. With n open jobs, all freshly queued, and no crash, owner retry or arrival, at most 3n
   * turns of a run claim a job, and once 3n turns came no earlier than the retries scheduled when they
   * started, every job has succeeded or is a dead letter, whichever attempts failed.
   */
  lemma QueueDrains(s: Store, turns: seq<Turn>, profile: Profile)
    requires StoreValid(s) && NoneLeased(s.intake)
    requires forall j :: j in OpenJobs(s.intake) ==> s.intake.jobs[j].attempts == 0
    requires forall turn :: turn in turns ==> !Chunker.IsBlank(turn.error)
    ensures Claims(s, turns, profile) <= 3 * |OpenJobs(s.intake)|
    ensures TimelyTurns(s, turns, profile) >= 3 * |OpenJobs(s.intake)| ==>
              AllSettled(AfterTurns(s, turns, profile).intake)
    ensures Claims(s, turns, profile) == 3 * |OpenJobs(s.intake)| ==> AllSettled(AfterTurns(s, turns, profile).intake)
  {
    hide StoreValid, Chunker.IsBlank, Weight, IsSettled, Total;
    ClaimsArePaid(s, turns, profile);
    TimelyTurnsWork(s, turns, profile);
    TotalOfFresh(s.intake.jobs, OpenJobs(s.intake));
    var end := AfterTurns(s, turns, profile);
    if Total(end.intake.jobs) == 0 {
      forall j | j in end.intake.jobs
        ensures IsSettled(end.intake.jobs[j])
      {
        NothingLeft(end.intake.jobs, j);
      }
    }
  }

  /** No deadlock: while a job is open and none is leased, some time is late enough for every later claim to succeed. */
  lemma OpenJobsBecomeClaimable(s: Store) returns (from: nat)
    requires StoreValid(s) && NoneLeased(s.intake) && OpenJobs(s.intake) != {}
    ensures forall now :: now >= from ==> EligibleJobs(s.intake, now) != {}
  {
    hide RecordsValid, VectorsPublished, TextsPublished, GraphPublished, VectorFilesSound, IntakeValid;
    var j :| j in OpenJobs(s.intake);
    ValidRecords(s);
    RecordsHaveIntake(s);
    JobKnowsItself(s.intake, j);
    from := if s.intake.jobs[j].status == RetryWait then s.intake.jobs[j].nextAttemptAt.value else 0;
    forall now: nat | now >= from
      ensures EligibleJobs(s.intake, now) != {}
    {
      assert j in EligibleJobs(s.intake, now);
    }
  }

  // ------------------------------------------------- the loop

  /** The ids a turn draws are new. */
  ghost predicate DrawsFresh(s: Store, turn: Turn)
    requires StoreValid(s)
  {
    Productive(s, turn) ==>
      var j := Least(EligibleJobs(s.intake, turn.claimAt));
      && j in s.intake.payloads
      && FreshIds(s, turn.ids, |ChunksOf(s.intake.payloads[j])|)
      && forall scope :: Published(scope, turn.generation) !in s.files.texts
  }

  function Sparing(turn: Turn, spared: set<TextPath>): Turn {
    turn.(spared := spared)
  }

  /** Whatever the cleanups on the way leave behind, no id is drawn twice. */
  ghost predicate AllDrawFresh(s: Store, turns: seq<Turn>, profile: Profile)
    requires StoreValid(s)
    decreases |turns|
  {
    turns == []
    || (DrawsFresh(s, turns[0])
        && forall spared :: AllDrawFresh(AfterTurn(s, Sparing(turns[0], spared), profile), turns[1..], profile))
  }

  /** The turns as they went: `turns`, with what each cleanup left. */
  ghost predicate WentAs(turns: seq<Turn>, done: seq<Turn>) {
    |done| == |turns| && forall i :: 0 <= i < |turns| ==> done[i] == Sparing(turns[i], done[i].spared)
  }

  /** The worker loop, for as many turns as the process lives. */
  method Work(store: HangarStore, turns: seq<Turn>) returns (ghost done: seq<Turn>)
    requires store.Valid() && AllDrawFresh(store.View(), turns, store.profile)
    requires forall turn :: turn in turns ==> !Chunker.IsBlank(turn.error)
    modifies store, store.text, store.vectors
    ensures WentAs(turns, done)
    ensures store.Valid() && store.View() == AfterTurns(old(store.View()), done, store.profile)
  {
    hide StoreValid, Apply, Productive, DrawsFresh, Chunker.IsBlank, AfterTurn;
    done := [];
    for i := 0 to |turns|
      invariant store.Valid()
      invariant AllDrawFresh(store.View(), turns[i..], store.profile)
      invariant WentAs(turns[..i], done)
      invariant store.View() == AfterTurns(old(store.View()), done, store.profile)
    {
      assert turns[i..][0] == turns[i] && turns[i..][1..] == turns[i + 1..] && turns[i] in turns;
      ghost var spared := WorkOnce(store, turns[i]);
      OneMoreTurn(old(store.View()), done, Sparing(turns[i], spared), store.profile);
      done := done + [Sparing(turns[i], spared)];
    }
    assert turns[..|turns|] == turns;
  }

  lemma {:induction false} OneMoreTurn(s: Store, done: seq<Turn>, turn: Turn, profile: Profile)
    requires StoreValid(s)
    ensures AfterTurns(s, done + [turn], profile) == AfterTurn(AfterTurns(s, done, profile), turn, profile)
    decreases |done|
  {
    hide StoreValid, AfterTurn;
    if done == [] {
      assert ([] + [turn])[1..] == [];
    } else {
      OneMoreTurn(AfterTurn(s, done[0], profile), done[1..], turn, profile);
      assert (done + [turn])[1..] == done[1..] + [turn];
    }
  }

  method WorkOnce(store: HangarStore, turn: Turn) returns (ghost spared: set<TextPath>)
    requires store.Valid() && DrawsFresh(store.View(), turn) && !Chunker.IsBlank(turn.error)
    modifies store, store.text, store.vectors
    ensures store.Valid() && store.View() == AfterTurn(old(store.View()), Sparing(turn, spared), store.profile)
  {
    spared := {};
    hide StoreValid, Apply, Chunker.IsBlank, ChunksOf, Claim, Fail, FreshIds, CanProcess;
    ghost var s := store.View();
    ClaimedIs(s, turn);
    var claimed := store.ClaimNextIngestionJob(turn.claimAt);
    if claimed.Err? || claimed.value.None? { return; }
    ghost var s1 := store.View();
    var job := claimed.value.value;
    var processed;
    processed, spared := store.ProcessClaimedIngestionJob(job, turn.ids, turn.generation, turn.steps, turn.torn,
                                                          turn.failing, turn.processAt);
    ghost var s2 := store.View();
    RunThree(s, TurnOps(job.job.id, Sparing(turn, spared), store.profile));
    if processed.Err? {
      var failed := store.FailClaimedIngestionJob(job.job.id, turn.error, turn.failAt);
    } else {
      FailAfterSuccess(s2, job.job.id, turn.error, turn.failAt);
    }
  }

  /** What a claim hands to the worker. */
  lemma ClaimedIs(s: Store, turn: Turn)
    requires StoreValid(s) && DrawsFresh(s, turn)
    ensures var (t', r) := Claim(s.intake, turn.claimAt);
      && r.Ok? && (r.value.Some? <==> Productive(s, turn))
      && (r.value.None? ==> Apply(s, ClaimOp(turn.claimAt)) == s)
      && (r.value.Some? ==>
            var j := Least(EligibleJobs(s.intake, turn.claimAt));
            var s1 := Apply(s, ClaimOp(turn.claimAt));
            && r.value.value.job.id == j && j in s1.intake.jobs && j in s1.intake.payloads
            && r.value.value.content == s1.intake.payloads[j]
            && r.value.value.job.documentId == s1.intake.jobs[j].documentId
            && FreshIds(s1, turn.ids, |ChunksOf(r.value.value.content)|)
            && s1.files == s.files && forall scope :: Published(scope, turn.generation) !in s.files.texts)
  {
    hide StoreValid, IntakeValid, IsEligible, ChunksOf;
    IntakeStepIs(s, ClaimOp(turn.claimAt));
    ClaimKeepsValid(s.intake, turn.claimAt);
    if Productive(s, turn) {
      var j := Least(EligibleJobs(s.intake, turn.claimAt));
      JobKnowsItself(s.intake, j);
      assert FreshIds(s, turn.ids, |ChunksOf(s.intake.payloads[j])|);
    }
  }

  lemma FailAfterSuccess(s: Store, j: Uuid, error: string, now: nat)
    requires StoreValid(s) && j in s.intake.jobs && s.intake.jobs[j].status == Succeeded
    ensures Apply(s, FailOp(j, error, now)) == s
  {
    hide StoreValid, Chunker.IsBlank;
  }
}
