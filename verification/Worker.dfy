/** The worker: claims jobs from the durable table, works on them, and records how they ended. */
module Worker {
  import opened Strings
  import opened ImageRefs
  import opened Storage
  import opened Jobs
  import opened Queue
  import P = Publication
  import S = PublicationSafety
  import C = Controller

  /** What the outside world answers during one attempt, and what other handlers ask of the job
      store before and while the attempt is recorded. */
  datatype Circumstances = Circumstances(
    first: C.Oracle, second: C.Oracle, third: C.Oracle, start: int, end: int, claim: Write, hint: Write, mark: Write,
    meanwhile: seq<Request>, others: seq<Request>)

  /** How a claimed job was dealt with. */
  datatype Attempt =
    | Synchronized(ok: bool, alive: bool)
    | Unknown
    | Malformed
    | NotEnabled
    | Worked(result: C.Worked)

  const SYNC_FAILED := "workspace synchronization failed"
  const BAD_ACTION := "unsupported job action"
  const BAD_REQUEST := "invalid image, tag or file"
  const UPDATE_FAILED := "Git update failed"

  /** The row of a running job after the attempt, if the write is committed. */
  function Recorded(row: JobRow, a: Attempt, now: int): JobRow
    requires row.attempts >= 1
  {
    match a
    case Synchronized(ok, alive) =>
      if !alive then row else if ok then Completed(row, OutcomeSynchronized, now) else FailedRow(row, row.attempts, SYNC_FAILED, now)
    case Unknown => FailedRow(row, row.attempts, BAD_ACTION, now)
    case Malformed => Marked(row, Failed, Some(OutcomeInvalidRequest), BAD_REQUEST, 0, now)
    case NotEnabled => Completed(row, OutcomeSkippedPolicy, now)
    case Worked(result) =>
      match result
      case Did(outcome) => if JobStore.Completes(outcome) then Completed(row, outcome, now) else row
      case Conflicted => Marked(row, Failed, Some(OutcomeConflict), UPDATE_FAILED, 0, now)
      case Broken => FailedRow(row, row.attempts, UPDATE_FAILED, now)
      case Killed => row
  }

  lemma PublishedIsRecorded(row: JobRow, a: Attempt, now: int)
    requires row.attempts >= 1 && row.status == Running
    ensures IsPublished(Recorded(row, a, now)) ==> a == Worked(C.Did(OutcomePublished))
    ensures !IsPublished(row) && Recorded(row, a, now).job == row.job
  {
  }

  function Completed(row: JobRow, outcome: JobOutcome, now: int): JobRow {
    Marked(row, JobStore.StatusFor(outcome), Some(outcome), JobStore.FailureFor(outcome), 0, now)
  }

  predicate IsPublished(row: JobRow) {
    row.status == Succeeded && row.outcome == Some(OutcomePublished)
  }

  lemma KeptSinceClaim(before: Table, after: Table, id: string, now: int)
    requires id in before && OthersKept(before[id := Claimed(before[id], now)], after, id)
    ensures OthersKept(before, after, id)
  {
  }

  class GitWorker {
    const store: JobStore
    const manager: C.GitManager
    const autoUpdate: bool
    const allowed: seq<string>

    constructor (store: JobStore, manager: C.GitManager, autoUpdate: bool, allowed: seq<string>)
      ensures this.store == store && this.manager == manager && this.autoUpdate == autoUpdate && this.allowed == allowed
      ensures store.Valid() && store.reading == None && store.rows == map[] && manager.Valid() && manager.task == P.Idle ==> Valid()
    {
      this.store, this.manager, this.autoUpdate, this.allowed := store, manager, autoUpdate, allowed;
    }

    ghost predicate Valid()
      reads this, store, manager
    {
      store.Valid() && store.reading == None && manager.Valid() && manager.task == P.Idle && AllPublished(store.rows)
    }

    /** Every job that is recorded as published really is. */
    ghost predicate AllPublished(rows: Table)
      reads this, manager
    {
      forall id :: id in rows && IsPublished(rows[id]) ==> Published(rows[id].job)
    }

    /** No operation of the controller, by whoever it was asked for, takes a publication back. */
    twostate lemma AllStayPublished(rows: Table)
      requires old(manager.Valid()) && manager.Continues() && old(AllPublished(rows))
      ensures AllPublished(rows)
    {
      hide S.HasLanded, C.Permitted, P.IsRun;
      forall id | id in rows && IsPublished(rows[id])
        ensures Published(rows[id].job)
      {
        assert old(Published(rows[id].job));
        manager.PublishedStays(P.JobPlan(rows[id].job.id));
      }
    }

    /** Does what the job asks for, without touching the job table. */
    method Try(job: Job, c: Circumstances) returns (a: Attempt)
      requires Valid()
      modifies manager
      ensures Valid() && manager.Continues()
      ensures a.Synchronized? <==> job.action == Synchronize
      ensures a == Unknown <==> job.action != Synchronize && job.action != Update
      ensures a == Malformed <==> job.action == Update && !C.UpdateOk(job)
      ensures a == NotEnabled <==> job.action == Update && C.UpdateOk(job) && !autoUpdate && !job.force
      ensures !a.Worked? ==> manager.sent == old(manager.sent) && manager.plans == old(manager.plans)
      ensures forall id :: id in old(manager.plans) && id != P.JobPlan(job.id) ==> id in manager.plans && manager.plans[id] == old(manager.plans)[id]
      ensures manager.sent == old(manager.sent)
              || (job.id in manager.baselines
                  && manager.sent == old(manager.sent) + [P.Push(P.JobPlan(job.id), manager.baselines[job.id], c.third.rev)])
      ensures a == Worked(C.Did(OutcomePublished)) ==> Published(job)
      ensures a != Worked(C.Did(OutcomeConflict)) && a != Worked(C.Did(OutcomeInvalidRequest))
    {
      hide C.Permitted, C.UpdateOk, P.IsRun, IsHistory, AllPublished;
      if job.action == Synchronize {
        var ok, alive := manager.SyncWorkspace(c.first);
        AllStayPublished(store.rows);
        return Synchronized(ok, alive);
      }
      if job.action != Update {
        return Unknown;
      }
      if !C.UpdateOk(job) {
        return Malformed;
      }
      if !autoUpdate && !job.force {
        return NotEnabled;
      }
      var result := manager.Work(job, allowed, c.first, c.second, c.third);
      AllStayPublished(store.rows);
      a := Worked(result);
    }

    /** The plan of the job is published, and its own push put the commit on the branch; it asks
        for what the job asked, within the allowed environments. */
    ghost predicate Published(job: Job)
      reads this, manager
    {
      var id := P.JobPlan(job.id);
      && id in manager.plans && manager.plans[id].state == P.Published && S.HasLanded(manager.View(), id, manager.plans[id])
      && |manager.plans[id].plan.intent.changes| == 1 && C.Permitted(job, allowed, manager.plans[id].plan.intent.changes[0])
    }

    /** Records the end of an attempt; a killed process records nothing. */
    method Record(job: Job, a: Attempt, others: seq<Request>, now: int, db: Write)
      requires store.Valid() && store.reading == None && job.id in store.rows && store.rows[job.id].status == Running
      requires a != Worked(C.Did(OutcomeConflict)) && a != Worked(C.Did(OutcomeInvalidRequest))
      modifies store
      ensures store.Continues() && store.reading == None && old(store.rows)[job.id].attempts >= 1
      ensures job.id in store.rows
              && store.rows[job.id] == if db == Refused then old(store.rows)[job.id] else Recorded(old(store.rows)[job.id], a, now)
      ensures OthersKept(old(store.rows), store.rows, job.id)
      ensures others == [] ==>
                store.rows == if db == Refused then old(store.rows)
                              else old(store.rows)[job.id := Recorded(old(store.rows)[job.id], a, now)]
    {
      store.RowsAreOk();
      assert RowOk(job.id, store.rows[job.id]);
      ghost var row := store.rows[job.id];
      assert store.rows == store.rows[job.id := row];
      match a {
        case Synchronized(ok, alive) =>
          if alive {
            if ok {
              var _ := store.MarkCompleted(job.id, OutcomeSynchronized, now, db);
            } else {
              var _ := store.MarkFailed(job.id, SYNC_FAILED, others, now, db);
            }
          }
        case Unknown => var _ := store.MarkFailed(job.id, BAD_ACTION, others, now, db);
        case Malformed => var _ := store.MarkRejected(job.id, BAD_REQUEST, now, db);
        case NotEnabled => var _ := store.MarkCompleted(job.id, OutcomeSkippedPolicy, now, db);
        case Worked(result) =>
          match result {
            case Did(outcome) => var _ := store.MarkCompleted(job.id, outcome, now, db);
            case Conflicted => var _ := store.MarkOutcome(job.id, Failed, Some(OutcomeConflict), UPDATE_FAILED, now, db);
            case Broken => var _ := store.MarkFailed(job.id, UPDATE_FAILED, others, now, db);
            case Killed =>
          }
      }
    }

    /** The same, with what others ask for before the attempt is recorded. */
    method RecordLater(job: Job, a: Attempt, c: Circumstances)
      requires store.Valid() && store.reading == None && job.id in store.rows && store.rows[job.id].status == Running
      requires a != Worked(C.Did(OutcomeConflict)) && a != Worked(C.Did(OutcomeInvalidRequest))
      modifies store
      ensures store.Continues() && store.reading == None && old(store.rows)[job.id].attempts >= 1
      ensures job.id in store.rows
              && store.rows[job.id] == if c.mark == Refused then old(store.rows)[job.id] else Recorded(old(store.rows)[job.id], a, c.end)
      ensures OthersKept(old(store.rows), store.rows, job.id)
      ensures c.meanwhile == [] && c.others == [] ==>
                store.rows == if c.mark == Refused then old(store.rows)
                              else old(store.rows)[job.id := Recorded(old(store.rows)[job.id], a, c.end)]
    {
      hide Recorded, IsHistory;
      store.Others(c.meanwhile, None);
      Record(job, a, c.others, c.end, c.mark);
    }

    /** Works on a claimed job and records the result. A job recorded as published really is. */
    method ProcessClaimedJob(job: Job, c: Circumstances) returns (a: Attempt)
      requires Valid() && job.id in store.rows && store.rows[job.id].job == job && store.rows[job.id].status == Running
      modifies store, manager
      ensures Valid() && store.Continues() && manager.Continues()
      ensures old(store.rows)[job.id].attempts >= 1
      ensures job.id in store.rows
              && store.rows[job.id] == if c.mark == Refused then old(store.rows)[job.id] else Recorded(old(store.rows)[job.id], a, c.end)
      ensures OthersKept(old(store.rows), store.rows, job.id)
      ensures c.meanwhile == [] && c.others == [] ==>
                store.rows == if c.mark == Refused then old(store.rows)
                              else old(store.rows)[job.id := Recorded(old(store.rows)[job.id], a, c.end)]
      ensures IsPublished(store.rows[job.id]) ==> Published(job)
      ensures manager.sent == old(manager.sent)
              || (job.id in manager.baselines
                  && manager.sent == old(manager.sent) + [P.Push(P.JobPlan(job.id), manager.baselines[job.id], c.third.rev)])
    {
      hide Recorded, Published, IsHistory, P.IsRun, OthersKept, AllPublished, IsPublished;
      a := Try(job, c);
      ghost var before := store.rows;
      RecordLater(job, a, c);
      PublishedIsRecorded(before[job.id], a, c.end);
      StillAllPublished(before, store.rows, job);
    }

    lemma NoneNewPublished(before: Table, after: Table)
      requires AllPublished(before)
      requires forall id :: id in after && after[id].status == Succeeded ==> id in before && after[id] == before[id]
      ensures AllPublished(after)
    {
      hide Published;
    }

    lemma StillAllPublished(before: Table, after: Table, job: Job)
      requires AllPublished(before) && OthersKept(before, after, job.id) && job.id in after && after[job.id].job == job
      requires IsPublished(after[job.id]) ==> Published(job)
      ensures AllPublished(after)
    {
      hide Published;
    }

    /** Claims a job: the oldest due one first; a hint only when nothing is due. */
    method ClaimJob(hint: Option<string>, c: Circumstances) returns (job: Option<Job>)
      requires Valid()
      modifies store
      ensures store.Continues() && store.reading == None
      ensures job.Some? ==> job.value.id in store.rows && store.rows[job.value.id].job == job.value && store.rows[job.value.id].status == Running
      ensures forall id :: id in store.rows && store.rows[id].status == Succeeded ==> id in old(store.rows) && store.rows[id] == old(store.rows)[id]
      ensures Valid()
      ensures c.claim != Lost && job.Some? ==>
                var id := job.value.id;
                && id in old(store.rows) && job.value == old(store.rows)[id].job
                && store.rows == old(store.rows)[id := Claimed(old(store.rows)[id], c.start)]
                && (hint == Some(id) || IsOldestDue(old(store.rows), id, c.start))
      ensures c.claim == Done && (exists id :: id in old(store.rows) && Due(old(store.rows)[id], c.start)) ==>
                job.Some? && IsOldestDue(old(store.rows), job.value.id, c.start)
      ensures c.claim == Done && c.hint == Done && (forall id :: id in old(store.rows) ==> !Due(old(store.rows)[id], c.start))
              && hint.Some? && hint.value in old(store.rows) && old(store.rows)[hint.value].status == Waiting ==>
                job.Some? && job.value == old(store.rows)[hint.value].job && job.value.id == hint.value
      ensures c.claim == Done && job.None? ==> forall id :: id in old(store.rows) ==> !Due(old(store.rows)[id], c.start)
    {
      hide Earlier, Due, IsHistory, P.IsRun, AllPublished;
      ghost var before := store.rows;
      var claim := store.ClaimNext(c.start, c.claim);
      if !claim.Taken? && hint.Some? {
        claim := store.ClaimById(hint.value, c.start, c.hint);
      }
      job := if claim.Taken? then Some(claim.job) else None;
      NoneNewPublished(before, store.rows);
    }

    /** One turn of the worker's loop. Before and after it, every job recorded as published is. */
    method Turn(hint: Option<string>, c: Circumstances) returns (job: Option<Job>)
      requires Valid()
      modifies store, manager
      ensures Valid() && store.Continues() && manager.Continues()
      ensures c.claim == Done && (exists id :: id in old(store.rows) && Due(old(store.rows)[id], c.start)) ==>
                job.Some? && IsOldestDue(old(store.rows), job.value.id, c.start)
      ensures c.claim != Lost && job.Some? ==>
                && job.value.id in old(store.rows) && job.value == old(store.rows)[job.value.id].job
                && job.value.id in store.rows && (c.meanwhile == [] && c.others == [] ==> store.rows == old(store.rows)[job.value.id := store.rows[job.value.id]])
                && (hint == Some(job.value.id) || IsOldestDue(old(store.rows), job.value.id, c.start))
      ensures c.claim == Done && c.hint == Done && (forall id :: id in old(store.rows) ==> !Due(old(store.rows)[id], c.start))
              && hint.Some? && hint.value in old(store.rows) && old(store.rows)[hint.value].status == Waiting ==>
                job.Some? && job.value == old(store.rows)[hint.value].job
      ensures c.claim != Lost && job.Some? ==> OthersKept(old(store.rows), store.rows, job.value.id)
      ensures c.claim == Done && job.None? ==> forall id :: id in old(store.rows) ==> !Due(old(store.rows)[id], c.start)
      ensures job.Some? ==> job.value.id in store.rows && (IsPublished(store.rows[job.value.id]) ==> Published(job.value))
    {
      hide Earlier, Due, Recorded, Published, IsHistory, P.IsRun, IsOldestDue, OthersKept, AllPublished, IsPublished;
      ghost var before := store.rows;
      job := ClaimJob(hint, c);
      if job.Some? {
        var _ := ProcessClaimedJob(job.value, c);
        if c.claim != Lost {
          KeptSinceClaim(before, store.rows, job.value.id, c.start);
        }
      }
    }
  }
}
