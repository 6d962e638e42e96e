/** The job store. Admission, claims and final outcomes are one statement or transaction each; a
    retry and a failure read first and write later, and requests of others come in between. */
module Queue {
  import opened Strings
  import opened ImageRefs
  import opened Jobs
  import opened Storage

  datatype Answer = Accepted(isNew: bool) | Mismatch | NotSupported | Unavailable

  datatype Claim = Taken(job: Job) | Nothing | ClaimFailed

  /** A call on the store by some other request handler, or one half of a retry by one. */
  datatype Request =
    | AskEnqueue(job: Job, scope: string, event: string, now: int, db: Write)
    | AskReadRetry(request: nat, id: string)
    | AskWriteRetry(request: nat, now: int, db: Write)

  class JobStore {
    var rows: Table
    var retrying: map<nat, string>
    ghost var reading: Option<Reading>
    ghost var stores: seq<Store>
    ghost var steps: seq<Step>
    ghost var clock: seq<int>

    ghost function View(): Store
      reads this
    {
      Store(rows, retrying, reading)
    }

    /** The steps so far form a history that ends in the present state. */
    ghost predicate Valid()
      reads this
    {
      IsHistory(stores, steps, clock) && stores[|stores| - 1] == View()
    }

    constructor ()
      ensures Valid() && rows == map[] && retrying == map[] && reading == None
    {
      rows, retrying, reading, stores, steps, clock := map[], map[], None, [EMPTY], [], [];
    }

    /** Appends the step just taken. */
    ghost method Take(s: Step, now: int)
      requires IsHistory(stores, steps, clock) && JobStep(stores[|stores| - 1], View(), s, now)
      modifies `stores, `steps, `clock
      ensures Valid() && stores == old(stores) + [View()] && steps == old(steps) + [s] && clock == old(clock) + [now]
    {
      hide JobStep;
      var before, taken, times := stores, steps, clock;
      stores, steps, clock := before + [View()], taken + [s], times + [now];
      forall i | 0 <= i < |steps|
        ensures JobStep(stores[i], stores[i + 1], steps[i], clock[i])
      {
        if i < |taken| {
          assert JobStep(before[i], before[i + 1], taken[i], times[i]);
        }
      }
    }

    /** The history so far is a prefix of the history now. */
    twostate predicate Continues()
      reads this
    {
      Valid() && old(stores) <= stores && old(steps) <= steps && old(clock) <= clock
    }

    lemma StoreIsOk()
      requires Valid()
      ensures StoreOk(View())
    {
      hide JobStep, StoreOk;
      HistoryStore(stores, steps, clock, |stores| - 1);
    }

    lemma RowsAreOk()
      requires Valid()
      ensures TableOk(rows)
    {
      hide IsHistory, TableOk, ReadingOk;
      StoreIsOk();
    }

    // ----- admission -----

    /** Inserts a request once; a repeat is acknowledged only when its whole content agrees. */
    method EnqueueScoped(job: Job, scope: string, event: string, now: int, db: Write) returns (r: Answer)
      requires Valid()
      modifies this
      ensures Continues() && retrying == old(retrying) && reading == old(reading)
      ensures r == NotSupported <==> !Supported(job)
      ensures rows == if Supported(job) && job.id !in old(rows) && db != Refused
                      then old(rows)[job.id := NewRow(job, scope, event, now)] else old(rows)
      ensures r.Accepted? ==> job.id in rows && Acknowledges(rows[job.id], job, scope, event) && r.isNew == (job.id !in old(rows))
      ensures r == Mismatch <==>
                Supported(job) && db != Refused && job.id in old(rows) && !Acknowledges(old(rows)[job.id], job, scope, event)
      ensures Supported(job) && db == Done ==> r.Accepted? || r == Mismatch
    {
      hide JobStep, IsHistory;
      if !Supported(job) {
        return NotSupported;
      }
      if db == Refused {
        return Unavailable;
      }
      var isNew := job.id !in rows;
      if isNew {
        rows := rows[job.id := NewRow(job, scope, event, now)];
        EnqueueIsAStep(old(View()), job, scope, event, now);
        Take(Enqueue(job, scope, event), now);
      } else if !Acknowledges(rows[job.id], job, scope, event) {
        return Mismatch;
      }
      r := if db == Done then Accepted(isNew) else Unavailable;
    }

    lemma EnqueueIsAStep(s: Store, job: Job, scope: string, event: string, now: int)
      requires Supported(job) && job.id !in s.rows
      ensures JobStep(s, s.(rows := s.rows[job.id := NewRow(job, scope, event, now)]), Enqueue(job, scope, event), now)
    {
    }

    // ----- claims -----

    /** The first row the claim query yields, oldest first. */
    method SelectDue(now: int) returns (found: Option<string>)
      requires TableOk(rows)
      ensures found.Some? ==> IsOldestDue(rows, found.value, now)
      ensures found.None? ==> forall id :: id in rows ==> !Due(rows[id], now)
    {
      found := None;
      var rest := rows.Keys;
      while rest != {}
        invariant rest <= rows.Keys
        invariant found.Some? ==> found.value in rows && found.value !in rest && Due(rows[found.value], now)
        invariant found.Some? ==>
                    forall o :: o in rows && o !in rest && o != found.value && Due(rows[o], now) ==> Earlier(rows[found.value], rows[o])
        invariant found.None? ==> forall o :: o in rows && o !in rest ==> !Due(rows[o], now)
        decreases rest
      {
        var id :| id in rest;
        ghost var before := found;
        if Due(rows[id], now) {
          if found.None? {
            found := Some(id);
          } else {
            EarlierOrder(rows, id, found.value, now);
            if Earlier(rows[id], rows[found.value]) {
              found := Some(id);
            }
          }
        }
        rest := rest - {id};
        if before.Some? {
          Extremum(rows, rest, id, before.value, found.value, now);
        }
      }
    }

    lemma EarlierOrder(rows: Table, a: string, b: string, now: int)
      requires TableOk(rows) && a in rows && b in rows && a != b
      ensures Earlier(rows[a], rows[b]) || Earlier(rows[b], rows[a])
    {
      assert RowOk(a, rows[a]) && RowOk(b, rows[b]);
      LessTotal(a, b);
    }

    lemma Extremum(rows: Table, rest: set<string>, id: string, was: string, best: string, now: int)
      requires TableOk(rows) && id in rows && was in rows && id != was && was !in rest && id !in rest
      requires forall o :: o in rows && o !in rest && o != id && o != was && Due(rows[o], now) ==> Earlier(rows[was], rows[o])
      requires (best == was && (Due(rows[id], now) ==> Earlier(rows[was], rows[id]))) || (best == id && Earlier(rows[id], rows[was]))
      ensures forall o :: o in rows && o !in rest && o != best && Due(rows[o], now) ==> Earlier(rows[best], rows[o])
    {
      forall o | o in rows && o !in rest && o != best && Due(rows[o], now)
        ensures Earlier(rows[best], rows[o])
      {
        if best == id && o != was {
          EarlierTransitive(rows[id], rows[was], rows[o]);
        }
      }
    }

    lemma EarlierTransitive(a: JobRow, b: JobRow, c: JobRow)
      requires Earlier(a, b) && Earlier(b, c)
      ensures Earlier(a, c)
    {
      if a.createdAt == b.createdAt && b.createdAt == c.createdAt {
        LessTransitive(a.job.id, b.job.id, c.job.id);
      }
    }

    /** Claims the oldest due job, whenever there is one. */
    method ClaimNext(now: int, db: Write) returns (r: Claim)
      requires Valid() && reading == None
      modifies this
      ensures Continues() && retrying == old(retrying) && reading == None
      ensures rows == old(rows) || exists id :: IsOldestDue(old(rows), id, now) && rows == old(rows)[id := Claimed(old(rows)[id], now)]
      ensures db == Refused ==> r == ClaimFailed && rows == old(rows)
      ensures r == Nothing ==> rows == old(rows) && forall id :: id in old(rows) ==> !Due(old(rows)[id], now)
      ensures r.Taken? ==>
                var id := r.job.id;
                && IsOldestDue(old(rows), id, now) && r.job == old(rows)[id].job
                && rows == old(rows)[id := Claimed(old(rows)[id], now)]
      ensures db == Done ==> r.Taken? || r == Nothing
    {
      hide JobStep, IsHistory, Due, Earlier;
      if db == Refused {
        return ClaimFailed;
      }
      RowsAreOk();
      var found := SelectDue(now);
      if found.None? {
        return if db == Done then Nothing else ClaimFailed;
      }
      assert IsOldestDue(rows, found.value, now) && RowOk(found.value, rows[found.value]);
      var job := rows[found.value].job;
      ClaimNextIsAStep(View(), job.id, now);
      rows := rows[job.id := Claimed(rows[job.id], now)];
      Take(Jobs.ClaimNext(job.id), now);
      r := if db == Done then Taken(job) else ClaimFailed;
    }

    lemma ClaimNextIsAStep(s: Store, id: string, now: int)
      requires s.reading == None && IsOldestDue(s.rows, id, now)
      ensures JobStep(s, s.(rows := s.rows[id := Claimed(s.rows[id], now)]), Jobs.ClaimNext(id), now)
    {
    }

    /** Claims a hinted job if it is still waiting; its schedule is not looked at. */
    method ClaimById(id: string, now: int, db: Write) returns (r: Claim)
      requires Valid() && reading == None
      modifies this
      ensures Continues() && retrying == old(retrying) && reading == None
      ensures rows == if db != Refused && id in old(rows) && old(rows)[id].status == Waiting
                      then old(rows)[id := Claimed(old(rows)[id], now)] else old(rows)
      ensures r.Taken? ==> id in old(rows) && old(rows)[id].status == Waiting && r.job == old(rows)[id].job && r.job.id == id && db != Refused
      ensures r == Nothing ==> rows == old(rows)
      ensures db == Done ==> r.Taken? || r == Nothing
    {
      hide IsHistory;
      if db == Refused {
        return ClaimFailed;
      }
      RowsAreOk();
      if id !in rows || rows[id].status != Waiting {
        return if db == Done then Nothing else ClaimFailed;
      }
      var job := rows[id].job;
      assert RowOk(id, rows[id]);
      rows := rows[id := Claimed(rows[id], now)];
      Take(Jobs.ClaimById(id), now);
      r := if db == Done then Taken(job) else ClaimFailed;
    }

    // ----- outcomes -----

    /** Ends a running job; anything else is left alone and reported. */
    method MarkOutcome(id: string, status: Status, outcome: Option<JobOutcome>, failure: string, now: int, db: Write) returns (ok: bool)
      requires Valid() && Finished(status) && reading == None
      modifies this
      ensures Continues() && retrying == old(retrying) && reading == None
      ensures rows == if db != Refused && id in old(rows) && old(rows)[id].status == Running
                      then old(rows)[id := Marked(old(rows)[id], status, outcome, failure, 0, now)] else old(rows)
      ensures ok <==> db == Done && id in old(rows) && old(rows)[id].status == Running
    {
      hide IsHistory;
      if db == Refused || id !in rows || rows[id].status != Running {
        return false;
      }
      rows := rows[id := Marked(rows[id], status, outcome, failure, 0, now)];
      Take(Finish(id, status, outcome, failure), now);
      ok := db == Done;
    }

    /** The final status of a job by its outcome: an image that is not there is a failure. */
    static function StatusFor(outcome: JobOutcome): Status {
      match outcome
      case OutcomeNoMatch => Failed
      case OutcomeSkippedPolicy => Skipped
      case _ => Succeeded
    }

    static function FailureFor(outcome: JobOutcome): string {
      if outcome == OutcomeNoMatch then "requested image not found in selected files" else ""
    }

    /** Rejections and conflicts are not completions. */
    static predicate Completes(outcome: JobOutcome) {
      outcome != OutcomeInvalidRequest && outcome != OutcomeConflict
    }

    method MarkCompleted(id: string, outcome: JobOutcome, now: int, db: Write) returns (ok: bool)
      requires Valid() && reading == None
      modifies this
      ensures Continues() && retrying == old(retrying) && reading == None
      ensures rows == if Completes(outcome) && db != Refused && id in old(rows) && old(rows)[id].status == Running
                      then old(rows)[id := Marked(old(rows)[id], StatusFor(outcome), Some(outcome), FailureFor(outcome), 0, now)] else old(rows)
      ensures ok <==> Completes(outcome) && db == Done && id in old(rows) && old(rows)[id].status == Running
    {
      if !Completes(outcome) {
        return false;
      }
      ok := MarkOutcome(id, StatusFor(outcome), Some(outcome), FailureFor(outcome), now, db);
    }

    /** A permanent request error: failed at once, no retry scheduled. */
    method MarkRejected(id: string, failure: string, now: int, db: Write) returns (ok: bool)
      requires Valid() && reading == None
      modifies this
      ensures Continues() && retrying == old(retrying) && reading == None
      ensures rows == if db != Refused && id in old(rows) && old(rows)[id].status == Running
                      then old(rows)[id := Marked(old(rows)[id], Failed, Some(OutcomeInvalidRequest), failure, 0, now)] else old(rows)
      ensures ok <==> db == Done && id in old(rows) && old(rows)[id].status == Running
    {
      ok := MarkOutcome(id, Failed, Some(OutcomeInvalidRequest), failure, now, db);
    }

    /** Records a failed attempt: reads the number of attempts, and then schedules another one or
        gives up. What others ask for in between does not touch the running job. */
    method MarkFailed(id: string, failure: string, others: seq<Request>, now: int, db: Write) returns (ok: bool)
      requires Valid() && reading == None
      modifies this
      ensures Continues() && reading == None
      ensures ok <==> db == Done && id in old(rows) && old(rows)[id].status == Running
      ensures id in old(rows) && old(rows)[id].status == Running ==>
                && old(rows)[id].attempts >= 1 && id in rows
                && rows[id] == if db != Refused then FailedRow(old(rows)[id], old(rows)[id].attempts, failure, now) else old(rows)[id]
      ensures OthersKept(old(rows), rows, id)
      ensures others == [] ==>
                retrying == old(retrying)
                && rows == if db != Refused && id in old(rows) && old(rows)[id].status == Running
                           then old(rows)[id := FailedRow(old(rows)[id], old(rows)[id].attempts, failure, now)] else old(rows)
    {
      hide IsHistory, FailedRow, JobStep, TableOk, Untouched;
      RowsAreOk();
      NothingTouched(rows);
      KeptSince(rows, rows, rows, id);
      if id !in rows || rows[id].status != Running {
        return false;
      }
      ghost var before := rows;
      var attempts := ReadForFailure(id, now);
      Others(others, None);
      ghost var meanwhile := rows;
      RunningStays(before, meanwhile, id);
      ok := WriteFailure(id, attempts, failure, now, db);
      KeptSince(before, meanwhile, rows, id);
    }

    method ReadForFailure(id: string, now: int) returns (attempts: nat)
      requires Valid() && reading == None && id in rows && rows[id].status == Running
      modifies this
      ensures Continues() && rows == old(rows) && retrying == old(retrying) && reading == Some(Reading(id, attempts))
      ensures attempts == rows[id].attempts >= 1
    {
      hide IsHistory, RequestStep;
      RowsAreOk();
      assert RowOk(id, rows[id]);
      attempts := rows[id].attempts;
      reading := Some(Reading(id, attempts));
      Take(ReadAttempts(id), now);
    }

    method WriteFailure(id: string, attempts: nat, failure: string, now: int, db: Write) returns (ok: bool)
      requires Valid() && reading == Some(Reading(id, attempts)) && attempts >= 1 && id in rows && rows[id].status == Running
      modifies this
      ensures Continues() && reading == None && retrying == old(retrying)
      ensures rows == if db == Refused then old(rows) else old(rows)[id := FailedRow(old(rows)[id], attempts, failure, now)]
      ensures ok == (db == Done)
    {
      hide IsHistory, FailedRow, RequestStep;
      reading := None;
      if db == Refused {
        Take(FailLost, now);
        return false;
      }
      rows := rows[id := FailedRow(rows[id], attempts, failure, now)];
      Take(Fail(failure), now);
      ok := db == Done;
    }

    /** At start-up: whatever a stopped process left running waits again. */
    method RecoverInterruptedJobs(now: int, db: Write) returns (count: Option<nat>)
      requires Valid() && reading == None
      modifies this
      ensures Continues() && retrying == old(retrying) && reading == None
      ensures db == Refused ==> rows == old(rows)
      ensures db != Refused ==> rows.Keys == old(rows).Keys && forall id :: id in rows ==> rows[id] == Recovered(old(rows)[id], now)
      ensures count.Some? <==> db == Done
      ensures count.Some? ==> count.value == |set id | id in old(rows) && old(rows)[id].status == Running|
      ensures count.Some? ==> forall id :: id in rows ==> rows[id].status != Running
    {
      hide IsHistory;
      if db == Refused {
        return None;
      }
      var interrupted := set id | id in rows && rows[id].status == Running;
      rows := AllRecovered(rows, now);
      Take(Recover, now);
      count := if db == Done then Some(|interrupted|) else None;
    }

    // ----- manual retries -----

    /** The first half of a retry: is there such a job, and has it failed without a conflict? */
    method ReadRetry(request: nat, id: string) returns (found: bool, job: Option<Job>)
      requires Valid() && request !in retrying
      modifies this
      ensures Continues() && rows == old(rows) && reading == old(reading)
      ensures found <==> id in rows
      ensures job == if id in rows && Retriable(rows[id]) then Some(rows[id].job) else None
      ensures retrying == if job.Some? then old(retrying)[request := id] else old(retrying)
    {
      hide IsHistory, WorkerStep;
      found, job := id in rows, None;
      if found && Retriable(rows[id]) {
        job := Some(rows[id].job);
        retrying := retrying[request := id];
        Take(Jobs.ReadRetry(request, id), 0);
      }
    }

    /** The second half: a job that is failed now is requeued, however it failed. */
    method WriteRetry(request: nat, id: string, now: int, db: Write) returns (ok: bool)
      requires Valid() && request in retrying && retrying[request] == id
      modifies this
      ensures Continues() && reading == old(reading) && retrying == Without(old(retrying), request)
      ensures rows == if db == Refused then old(rows) else AfterRetry(old(rows), id, now)
      ensures ok <==> db == Done && id in old(rows) && old(rows)[id].status == Failed
    {
      hide IsHistory, WorkerStep;
      ok := db == Done && id in rows && rows[id].status == Failed;
      retrying := Without(retrying, request);
      if db == Refused {
        Take(RetryLost(request), now);
        return;
      }
      if id in rows && rows[id].status == Failed {
        rows := rows[id := Requeued(rows[id], now)];
      }
      Take(Jobs.Retry(request), now);
    }

    /** A manual retry. Whether the job may be retried is decided on what was read; whether it is
        requeued depends only on its status after what others did meanwhile. */
    method Retry(request: nat, id: string, others: seq<Request>, now: int, db: Write)
      returns (found: bool, job: Option<Job>, ghost meanwhile: Table)
      requires Valid() && reading == None && request !in retrying
      modifies this
      ensures Continues() && reading == None
      ensures found <==> id in old(rows)
      ensures !(id in old(rows) && Retriable(old(rows)[id])) ==> job.None? && rows == old(rows)
      ensures id in old(rows) && Retriable(old(rows)[id]) ==>
                && id in meanwhile && Untouched(old(rows), meanwhile) && (others == [] ==> meanwhile == old(rows))
                && rows == (if db == Refused then meanwhile else AfterRetry(meanwhile, id, now))
                && job == if db == Done && meanwhile[id].status == Failed then Some(old(rows)[id].job) else None
    {
      hide IsHistory;
      meanwhile := rows;
      found, job := ReadRetry(request, id);
      if job.None? {
        return;
      }
      Others(others, Some(request));
      meanwhile := rows;
      var ok := WriteRetry(request, id, now, db);
      if !ok {
        job := None;
      }
    }

    // ----- other requests -----

    /** What other handlers ask for, one statement after the other. They leave running jobs and the
        own request alone. */
    method Others(requests: seq<Request>, own: Option<nat>)
      requires Valid()
      modifies this
      ensures Continues() && reading == old(reading)
      ensures Untouched(old(rows), rows)
      ensures own.Some? && own.value in old(retrying) ==> own.value in retrying && retrying[own.value] == old(retrying)[own.value]
      ensures requests == [] ==> rows == old(rows) && retrying == old(retrying)
    {
      hide IsHistory, Untouched;
      NothingTouched(rows);
      for i := 0 to |requests|
        invariant Valid() && old(stores) <= stores && old(steps) <= steps && old(clock) <= clock && reading == old(reading)
        invariant Untouched(old(rows), rows)
        invariant own.Some? && own.value in old(retrying) ==> own.value in retrying && retrying[own.value] == old(retrying)[own.value]
        invariant i == 0 ==> rows == old(rows) && retrying == old(retrying)
      {
        ghost var before := rows;
        Handle(requests[i], own);
        UntouchedSince(old(rows), before, rows);
      }
    }

    method Handle(request: Request, own: Option<nat>)
      requires Valid()
      modifies this
      ensures Continues() && reading == old(reading)
      ensures Untouched(old(rows), rows)
      ensures own.Some? && own.value in old(retrying) ==> own.value in retrying && retrying[own.value] == old(retrying)[own.value]
    {
      hide IsHistory, Untouched, NewRow, Acknowledges, AfterRetry;
      NothingTouched(rows);
      match request {
        case AskEnqueue(job, scope, event, now, db) =>
          UntouchedByEnqueue(rows, job, scope, event, now);
          var _ := EnqueueScoped(job, scope, event, now, db);
        case AskReadRetry(id, job) =>
          if id !in retrying {
            var _, _ := ReadRetry(id, job);
          }
        case AskWriteRetry(id, now, db) =>
          if id in retrying && Some(id) != own {
            UntouchedByRetry(rows, retrying[id], now);
            var _ := WriteRetry(id, retrying[id], now, db);
          }
      }
    }
  }

  lemma UntouchedByEnqueue(a: Table, job: Job, scope: string, event: string, now: int)
    ensures job.id !in a ==> Untouched(a, a[job.id := NewRow(job, scope, event, now)])
  {
    hide PayloadOf;
  }

  lemma UntouchedByRetry(a: Table, id: string, now: int)
    ensures Untouched(a, AfterRetry(a, id, now))
  {
  }

  lemma RunningStays(a: Table, b: Table, id: string)
    requires Untouched(a, b) && id in a && a[id].status == Running
    ensures id in b && b[id] == a[id]
  {
  }

  /** One write to the own row after what others did. */
  lemma KeptSince(a: Table, b: Table, c: Table, id: string)
    requires Untouched(a, b) && (c == b || (id in b && id in c && c == b[id := c[id]]))
    ensures OthersKept(a, c, id)
  {
  }

  lemma NothingTouched(a: Table)
    ensures Untouched(a, a)
  {
  }

  lemma UntouchedSince(a: Table, b: Table, c: Table)
    requires Untouched(a, b) && Untouched(b, c)
    ensures Untouched(a, c)
  {
  }

  /** Nothing is lost, no request changes, running jobs are as they were, and no job has succeeded. */
  ghost predicate Untouched(before: Table, after: Table) {
    && (forall id :: id in before ==>
                       id in after && after[id].job == before[id].job && (before[id].status == Running ==> after[id] == before[id]))
    && (forall id :: id in after && after[id].status == Succeeded ==> id in before && after[id] == before[id])
  }

  /** The same for all jobs but one. */
  ghost predicate OthersKept(before: Table, after: Table, id: string) {
    && (forall o :: o in before && o != id ==>
                      o in after && after[o].job == before[o].job && (before[o].status == Running ==> after[o] == before[o]))
    && (forall o :: o in after && o != id && after[o].status == Succeeded ==> o in before && after[o] == before[o])
  }
}
