/** The job table over whole histories: enqueues, claims, failures, retries, crash recoveries
    and repeated deliveries in any order. */
module JobRuns {
  import opened Strings
  import opened ImageRefs
  import opened Jobs

  // ----- durable admission -----

  predicate SameRequest(a: JobRow, b: JobRow) {
    a.job == b.job && a.scope == b.scope && a.fingerprint == b.fingerprint && a.createdAt == b.createdAt
  }

  lemma StepKeepsRequest(s: Store, s': Store, step: Step, now: int, id: string)
    requires JobStep(s, s', step, now) && id in s.rows
    ensures id in s'.rows && SameRequest(s.rows[id], s'.rows[id])
  {
    hide Earlier, Due, RetryDelay;
  }

  /** An accepted job keeps exactly its row: it never disappears and its request never changes. */
  lemma {:induction false} RequestStays(stores: seq<Store>, steps: seq<Step>, clock: seq<int>, i: nat, j: nat, id: string)
    requires IsHistory(stores, steps, clock) && i <= j < |stores| && id in stores[i].rows
    ensures id in stores[j].rows && SameRequest(stores[i].rows[id], stores[j].rows[id])
    decreases j
  {
    hide JobStep;
    if i < j {
      RequestStays(stores, steps, clock, i, j - 1, id);
      assert JobStep(stores[j - 1], stores[j - 1 + 1], steps[j - 1], clock[j - 1]);
      StepKeepsRequest(stores[j - 1], stores[j], steps[j - 1], clock[j - 1], id);
    }
  }

  /** Exactly once: an id is inserted by one request only; at any later time, whatever happened to
      the job, another request with that id is acknowledged if and only if scope, event, action,
      file, image, tag and force are those of the first. */
  lemma AdmittedOnce(
    stores: seq<Store>, steps: seq<Step>, clock: seq<int>, i: nat, j: nat, again: Job, scope: string, event: string)
    requires IsHistory(stores, steps, clock) && i < |steps| && i < j < |stores| && steps[i].Enqueue?
    requires again.id == steps[i].job.id
    ensures again.id in stores[j].rows
    ensures Acknowledges(stores[j].rows[again.id], again, scope, event)
            <==> scope == steps[i].scope && event == steps[i].event && Normalized(again).action == Normalized(steps[i].job).action
                 && again.file == steps[i].job.file && again.image == steps[i].job.image && again.tag == steps[i].job.tag
                 && again.force == steps[i].job.force
    ensures j < |steps| && steps[j].Enqueue? ==> steps[j].job.id != again.id
  {
    hide IsOldestDue;
    assert JobStep(stores[i], stores[i + 1], steps[i], clock[i]);
    RequestStays(stores, steps, clock, i + 1, j, again.id);
    if j < |steps| {
      assert JobStep(stores[j], stores[j + 1], steps[j], clock[j]);
    }
  }

  // ----- final states -----

  /** The row of a job, as it was. */
  predicate RowIs(s: Store, id: string, row: JobRow) {
    id in s.rows && s.rows[id] == row
  }

  predicate Settled(row: JobRow) {
    row.status == Succeeded || row.status == Skipped
  }

  predicate Conflicting(row: JobRow) {
    row.status == Failed && row.outcome == Some(OutcomeConflict)
  }

  /** A retry of the job that found it retriable has not written yet. */
  predicate PendingRetry(s: Store, id: string) {
    exists r :: r in s.retrying && s.retrying[r] == id
  }

  lemma StepKeepsFinal(s: Store, s': Store, step: Step, now: int, id: string)
    requires JobStep(s, s', step, now) && id in s.rows
    requires Settled(s.rows[id]) || (Conflicting(s.rows[id]) && !PendingRetry(s, id))
    ensures RowIs(s', id, s.rows[id])
    ensures Conflicting(s.rows[id]) ==> !PendingRetry(s', id)
  {
    hide RetryDelay, Earlier;
  }

  /** Succeeded and skipped jobs are never changed again, whatever requests are under way. */
  lemma {:induction false} SettledStays(stores: seq<Store>, steps: seq<Step>, clock: seq<int>, i: nat, j: nat, id: string)
    requires IsHistory(stores, steps, clock) && i <= j < |stores| && id in stores[i].rows && Settled(stores[i].rows[id])
    ensures RowIs(stores[j], id, stores[i].rows[id])
    decreases j
  {
    hide JobStep;
    if i < j {
      SettledStays(stores, steps, clock, i, j - 1, id);
      assert JobStep(stores[j - 1], stores[j - 1 + 1], steps[j - 1], clock[j - 1]);
      StepKeepsFinal(stores[j - 1], stores[j], steps[j - 1], clock[j - 1], id);
    }
  }

  lemma {:induction false} ConflictKept(s: Store, stores: seq<Store>, steps: seq<Step>, clock: seq<int>, j: nat, id: string)
    requires IsFuture(s, stores, steps, clock) && j < |stores|
    requires id in s.rows && Conflicting(s.rows[id]) && !PendingRetry(s, id)
    ensures RowIs(stores[j], id, s.rows[id]) && !PendingRetry(stores[j], id)
    decreases j
  {
    hide JobStep, PendingRetry;
    if j > 0 {
      ConflictKept(s, stores, steps, clock, j - 1, id);
      assert JobStep(stores[j - 1], stores[j - 1 + 1], steps[j - 1], clock[j - 1]);
      StepKeepsFinal(stores[j - 1], stores[j], steps[j - 1], clock[j - 1], id);
    }
  }

  /** A conflicting job stays as it is, in everything that can still happen, if and only if no
      retry that found it retriable is waiting to write. */
  lemma ConflictStaysExactly(s: Store, id: string)
    requires id in s.rows && Conflicting(s.rows[id])
    ensures (forall stores, steps, clock, j :: IsFuture(s, stores, steps, clock) && 0 <= j < |stores| ==> RowIs(stores[j], id, s.rows[id]))
            <==> !PendingRetry(s, id)
  {
    hide JobStep, IsFuture;
    if PendingRetry(s, id) {
      var r :| r in s.retrying && s.retrying[r] == id;
      var s' := s.(rows := AfterRetry(s.rows, id, 0), retrying := Without(s.retrying, r));
      RetryIsPossible(s, r, 0);
      var stores, steps, clock := [s, s'], [Retry(r)], [0];
      assert IsFuture(s, stores, steps, clock) && !RowIs(stores[1], id, s.rows[id]);
    } else {
      forall stores, steps, clock, j | IsFuture(s, stores, steps, clock) && 0 <= j < |stores|
        ensures RowIs(stores[j], id, s.rows[id])
      {
        ConflictKept(s, stores, steps, clock, j, id);
      }
    }
  }

  lemma RetryIsPossible(s: Store, r: nat, now: int)
    requires r in s.retrying
    ensures var s' := s.(rows := AfterRetry(s.rows, s.retrying[r], now), retrying := Without(s.retrying, r));
            IsFuture(s, [s, s'], [Retry(r)], [now])
  {
  }

  /** Such a retry found the job retriable at an earlier instant, before the conflict. */
  lemma {:induction false} PendingRetryReadBefore(stores: seq<Store>, steps: seq<Step>, clock: seq<int>, n: nat, r: nat) returns (i: nat)
    requires IsHistory(stores, steps, clock) && n < |stores| && r in stores[n].retrying
    ensures i < n && steps[i] == ReadRetry(r, stores[n].retrying[r])
    ensures stores[n].retrying[r] in stores[i].rows && Retriable(stores[i].rows[stores[n].retrying[r]])
    decreases n
  {
    hide Earlier, Due, RetryDelay;
    assert n > 0;
    assert JobStep(stores[n - 1], stores[n - 1 + 1], steps[n - 1], clock[n - 1]);
    if r in stores[n - 1].retrying && stores[n - 1].retrying[r] == stores[n].retrying[r] {
      i := PendingRetryReadBefore(stores, steps, clock, n - 1, r);
    } else {
      i := n - 1;
    }
  }

  /** It does happen: two retries find a failed job, one requeues it, the next attempt ends in a
      conflict, and then the other one requeues the conflicting job and erases its outcome. */
  lemma ConflictUndone(job: Job) returns (stores: seq<Store>, steps: seq<Step>, clock: seq<int>)
    requires job.action == Update
    ensures IsHistory(stores, steps, clock) && |steps| > 0
    ensures var n := |steps| - 1;
            && steps[n].Retry? && job.id in stores[n].rows && Conflicting(stores[n].rows[job.id])
            && job.id in stores[n + 1].rows && stores[n + 1].rows[job.id].status == Waiting && stores[n + 1].rows[job.id].outcome == None
  {
    hide IsOldestDue, RetryDelay, Requeued, Claimed, WorkerStep;
    var id := job.id;
    stores, steps, clock := FoundTwice(job);
    var s := stores[|stores| - 1];
    stores, steps, clock := Extended(stores, steps, clock, s.(rows := AfterRetry(s.rows, id, 0), retrying := Without(s.retrying, 2)), Retry(2));
    RequeuedWaits(s.rows[id]);
    stores, steps, clock := Attempted(stores, steps, clock, id, OutcomeConflict);
    s := stores[|stores| - 1];
    RequeuedWaits(s.rows[id]);
    stores, steps, clock := Extended(stores, steps, clock, s.(rows := AfterRetry(s.rows, id, 0), retrying := Without(s.retrying, 1)), Retry(1));
  }

  lemma RequeuedWaits(row: JobRow)
    ensures Requeued(row, 0).status == Waiting && Requeued(row, 0).outcome == None
  {
  }

  /** A failed job that two retries have found. */
  lemma FoundTwice(job: Job) returns (stores: seq<Store>, steps: seq<Step>, clock: seq<int>)
    requires job.action == Update
    ensures IsHistory(stores, steps, clock) && |steps| > 0
    ensures var s := stores[|stores| - 1];
            && job.id in s.rows && s.rows[job.id].status == Failed && s.reading == None
            && s.retrying == map[1 := job.id, 2 := job.id]
  {
    hide IsOldestDue, RetryDelay;
    var id, text := job.id, "";
    var row := NewRow(job, text, text, 0);
    stores, steps, clock := [EMPTY], [], [];
    stores, steps, clock := Extended(stores, steps, clock, EMPTY.(rows := EMPTY.rows[id := row]), Enqueue(job, text, text));
    stores, steps, clock := Attempted(stores, steps, clock, id, OutcomeNoMatch);
    var s := stores[|stores| - 1];
    stores, steps, clock := Extended(stores, steps, clock, s.(retrying := s.retrying[1 := id]), ReadRetry(1, id));
    s := stores[|stores| - 1];
    stores, steps, clock := Extended(stores, steps, clock, s.(retrying := s.retrying[2 := id]), ReadRetry(2, id));
  }

  lemma Extended(stores: seq<Store>, steps: seq<Step>, clock: seq<int>, s': Store, step: Step)
    returns (stores': seq<Store>, steps': seq<Step>, clock': seq<int>)
    requires IsHistory(stores, steps, clock) && JobStep(stores[|stores| - 1], s', step, 0)
    ensures stores' == stores + [s'] && steps' == steps + [step] && clock' == clock + [0]
    ensures IsHistory(stores', steps', clock')
  {
    hide JobStep;
    stores', steps', clock' := stores + [s'], steps + [step], clock + [0];
    forall i | 0 <= i < |steps'|
      ensures JobStep(stores'[i], stores'[i + 1], steps'[i], clock'[i])
    {
      if i < |steps| {
        assert JobStep(stores[i], stores[i + 1], steps[i], clock[i]);
      }
    }
  }

  /** Claims a waiting job and ends it as failed. */
  lemma Attempted(stores: seq<Store>, steps: seq<Step>, clock: seq<int>, id: string, outcome: JobOutcome)
    returns (stores': seq<Store>, steps': seq<Step>, clock': seq<int>)
    requires IsHistory(stores, steps, clock) && id in stores[|stores| - 1].rows && stores[|stores| - 1].rows[id].status == Waiting
    requires stores[|stores| - 1].reading == None
    ensures IsHistory(stores', steps', clock') && |stores'| == |stores| + 2
    ensures var s, s' := stores[|stores| - 1], stores'[|stores'| - 1];
            && s'.retrying == s.retrying && s'.reading == None
            && id in s'.rows && s'.rows[id].status == Failed && s'.rows[id].outcome == Some(outcome)
  {
    hide IsOldestDue;
    var s, text := stores[|stores| - 1], "";
    stores', steps', clock' := Extended(stores, steps, clock, s.(rows := s.rows[id := Claimed(s.rows[id], 0)]), ClaimById(id));
    s := stores'[|stores'| - 1];
    stores', steps', clock' := Extended(stores', steps', clock', s.(rows := s.rows[id := Marked(s.rows[id], Failed, Some(outcome), text, 0, 0)]),
                                        Finish(id, Failed, Some(outcome), text));
  }

  // ----- how often a job is claimed -----

  predicate IsClaimOf(step: Step, id: string) {
    (step.ClaimNext? || step.ClaimById?) && step.id == id
  }

  /** A retry that requeues the job: it finds it failed when it writes. */
  predicate Requeues(s: Store, step: Step, id: string) {
    step.Retry? && step.request in s.retrying && s.retrying[step.request] == id && id in s.rows && s.rows[id].status == Failed
  }

  /** A recovery that found the job running. */
  predicate Interrupts(s: Store, step: Step, id: string) {
    step.Recover? && id in s.rows && s.rows[id].status == Running
  }

  datatype Count = Count(claims: nat, retries: nat, interruptions: nat, recent: nat)

  function Counted(c: Count, s: Store, step: Step, id: string): Count {
    var hit := if Interrupts(s, step, id) then 1 else 0;
    Count(c.claims + (if IsClaimOf(step, id) then 1 else 0), c.retries + (if Requeues(s, step, id) then 1 else 0),
          c.interruptions + hit, if Requeues(s, step, id) then 0 else c.recent + hit)
  }

  /** Claims, manual retries and interruptions of a job in a history, and the interruptions since
      its last manual retry. */
  function CountOf(stores: seq<Store>, steps: seq<Step>, id: string): Count
    requires |stores| > |steps|
  {
    if steps == [] then Count(0, 0, 0, 0)
    else
      var n := |steps| - 1;
      Counted(CountOf(stores, steps[..n], id), stores[n], steps[n], id)
  }

  /** Each interruption gives one attempt back; each manual retry three new ones. */
  predicate Bounded(s: Store, id: string, c: Count) {
    if id !in s.rows then c == Count(0, 0, 0, 0)
    else
      var row := s.rows[id];
      && c.claims + c.recent <= 3 * c.retries + c.interruptions + row.attempts
      && row.attempts <= (if row.status == Waiting || row.status == Retrying then MAX_ATTEMPTS - 1 else MAX_ATTEMPTS) + c.recent
  }

  lemma RequestKeepsBound(s: Store, s': Store, step: Step, now: int, id: string, c: Count)
    requires StoreOk(s) && RequestStep(s, s', step, now) && Bounded(s, id, c)
    ensures Bounded(s', id, Counted(c, s, step, id))
  {
    hide RetryDelay;
  }

  lemma WorkerKeepsBound(s: Store, s': Store, step: Step, now: int, id: string, c: Count)
    requires StoreOk(s) && WorkerStep(s, s', step, now) && Bounded(s, id, c)
    ensures Bounded(s', id, Counted(c, s, step, id))
  {
    hide Earlier, RetryDelay;
    if id in s.rows {
      assert RowOk(id, s.rows[id]);
    }
  }

  lemma {:induction false} ClaimsAreBounded(stores: seq<Store>, steps: seq<Step>, clock: seq<int>, n: nat, id: string)
    requires IsHistory(stores, steps, clock) && n < |stores|
    ensures Bounded(stores[n], id, CountOf(stores, steps[..n], id))
  {
    hide RequestStep, WorkerStep, Bounded, Counted, StoreOk;
    if n == 0 {
      NothingCounted(id);
    } else {
      ClaimsAreBounded(stores, steps, clock, n - 1, id);
      HistoryStore(stores, steps, clock, n - 1);
      assert JobStep(stores[n - 1], stores[n - 1 + 1], steps[n - 1], clock[n - 1]);
      var c := CountOf(stores, steps[..n - 1], id);
      if RequestStep(stores[n - 1], stores[n], steps[n - 1], clock[n - 1]) {
        RequestKeepsBound(stores[n - 1], stores[n], steps[n - 1], clock[n - 1], id, c);
      } else {
        WorkerKeepsBound(stores[n - 1], stores[n], steps[n - 1], clock[n - 1], id, c);
      }
      assert steps[..n][..n - 1] == steps[..n - 1] && steps[..n][n - 1] == steps[n - 1];
    }
  }

  lemma NothingCounted(id: string)
    ensures Bounded(EMPTY, id, Count(0, 0, 0, 0))
  {
  }

  /** A job is claimed at most three times for itself and for each manual retry, plus once for every
      time a stopped process left it running. */
  lemma ClaimBound(stores: seq<Store>, steps: seq<Step>, clock: seq<int>, id: string)
    requires IsHistory(stores, steps, clock)
    ensures var c := CountOf(stores, steps, id); c.claims <= 3 * (1 + c.retries) + c.interruptions
  {
    hide JobStep, Counted;
    ClaimsAreBounded(stores, steps, clock, |steps|, id);
    assert steps[..|steps|] == steps;
  }

  // ----- when a job is claimed -----

  ghost predicate Monotone(clock: seq<int>) {
    forall i, j :: 0 <= i <= j < |clock| ==> clock[i] <= clock[j]
  }

  /** Waiting and running rows are scheduled no later than the present. */
  ghost predicate NoneAhead(rows: Table, now: int) {
    forall id :: id in rows && (rows[id].status == Waiting || rows[id].status == Running) ==> rows[id].nextAttemptAt <= now
  }

  lemma StepKeepsNoneAhead(s: Store, s': Store, step: Step, was: int, now: int)
    requires NoneAhead(s.rows, was) && was <= now && JobStep(s, s', step, now)
    ensures NoneAhead(s'.rows, now)
  {
    hide Earlier, RetryDelay;
  }

  lemma {:induction false} HistoryNoneAhead(stores: seq<Store>, steps: seq<Step>, clock: seq<int>, n: nat)
    requires IsHistory(stores, steps, clock) && Monotone(clock) && 0 < n < |stores|
    ensures NoneAhead(stores[n].rows, clock[n - 1])
  {
    hide JobStep;
    assert JobStep(stores[n - 1], stores[n - 1 + 1], steps[n - 1], clock[n - 1]);
    if n == 1 {
      StepKeepsNoneAhead(stores[0], stores[1], steps[0], clock[0], clock[0]);
    } else {
      HistoryNoneAhead(stores, steps, clock, n - 1);
      StepKeepsNoneAhead(stores[n - 1], stores[n], steps[n - 1], clock[n - 2], clock[n - 1]);
    }
  }

  /** With a monotone clock no claim is early, not even one by id, which never looks at the schedule;
      and a job that failed is not claimed again before its full delay of 5 or 10 seconds. */
  lemma NeverClaimedEarly(stores: seq<Store>, steps: seq<Step>, clock: seq<int>, n: nat)
    requires IsHistory(stores, steps, clock) && Monotone(clock)
    requires n < |steps| && (steps[n].ClaimNext? || steps[n].ClaimById?)
    ensures steps[n].id in stores[n].rows && Due(stores[n].rows[steps[n].id], clock[n])
    ensures var row := stores[n].rows[steps[n].id];
            row.status == Retrying ==> clock[n] >= row.updatedAt + RETRY_BASE_DELAY * row.attempts && 1 <= row.attempts <= 2
  {
    hide Earlier;
    assert JobStep(stores[n], stores[n + 1], steps[n], clock[n]);
    HistoryStore(stores, steps, clock, n);
    var id := steps[n].id;
    assert RowOk(id, stores[n].rows[id]);
    assert Pow2(0) == 1 && Pow2(1) == 2;
    if n > 0 {
      HistoryNoneAhead(stores, steps, clock, n);
      assert clock[n - 1] <= clock[n];
    }
  }

  /** Accepted work is not lost: once a new process has recovered the table, every job is finished,
      due now, or due within ten seconds of its failure. */
  lemma NothingIsLost(stores: seq<Store>, steps: seq<Step>, clock: seq<int>, n: nat, id: string)
    requires IsHistory(stores, steps, clock) && Monotone(clock)
    requires n < |steps| && steps[n].Recover? && id in stores[n + 1].rows
    ensures var row := stores[n + 1].rows[id];
            || Finished(row.status)
            || Due(row, clock[n])
            || (row.status == Retrying && row.nextAttemptAt <= row.updatedAt + 2 * RETRY_BASE_DELAY)
  {
    assert JobStep(stores[n], stores[n + 1], steps[n], clock[n]);
    HistoryNoneAhead(stores, steps, clock, n + 1);
    HistoryStore(stores, steps, clock, n + 1);
    assert RowOk(id, stores[n + 1].rows[id]);
    assert Pow2(0) == 1 && Pow2(1) == 2;
  }
}
