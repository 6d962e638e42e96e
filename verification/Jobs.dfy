/** The durable job table and the calls on it that have read and not yet written, as a state
    machine: one statement or transaction a step. */
module Jobs {
  import opened Strings
  import opened ImageRefs

  datatype Action = Unset | Update | Synchronize | Unsupported(name: string)

  datatype Job = Job(id: string, action: Action, file: string, image: string, tag: string, timestamp: int, force: bool)

  datatype Status = Waiting | Running | Retrying | Succeeded | Failed | Skipped

  datatype JobOutcome =
    | OutcomePublished
    | OutcomeAlreadySatisfied
    | OutcomeNoMatch
    | OutcomeSkippedPolicy
    | OutcomeSynchronized
    | OutcomeInvalidRequest
    | OutcomeConflict

  /** What the fingerprint of a request is computed from; the receipt time is not part of it. */
  datatype Payload = Payload(scope: string, event: string, action: Action, file: string, image: string, tag: string, force: bool)

  /** A row; rows written before fingerprints existed have none. */
  datatype JobRow = JobRow(
    job: Job, scope: string, fingerprint: Option<Payload>, createdAt: int,
    status: Status, attempts: nat, failure: string, updatedAt: int, nextAttemptAt: int, outcome: Option<JobOutcome>)

  type Table = map<string, JobRow>

  const MAX_ATTEMPTS: nat := 3
  const RETRY_BASE_DELAY: nat := 5_000_000_000

  // ----- requests -----

  function Normalized(job: Job): Job {
    if job.action == Unset then job.(action := Update) else job
  }

  predicate Supported(job: Job) {
    Normalized(job).action == Update || Normalized(job).action == Synchronize
  }

  function PayloadOf(job: Job, scope: string, event: string): Payload {
    var j := Normalized(job);
    Payload(scope, event, j.action, j.file, j.image, j.tag, j.force)
  }

  function NewRow(job: Job, scope: string, event: string, now: int): JobRow {
    JobRow(Normalized(job), scope, Some(PayloadOf(job, scope, event)), now, Waiting, 0, "", now, now, None)
  }

  /** A stored row acknowledges a repeated request. */
  predicate Acknowledges(row: JobRow, job: Job, scope: string, event: string) {
    row.scope == scope && row.fingerprint == Some(PayloadOf(job, scope, event))
  }

  // ----- claiming -----

  predicate Due(row: JobRow, now: int) {
    (row.status == Waiting || row.status == Retrying) && row.nextAttemptAt <= now
  }

  predicate Earlier(a: JobRow, b: JobRow) {
    a.createdAt < b.createdAt || (a.createdAt == b.createdAt && Less(a.job.id, b.job.id))
  }

  predicate IsOldestDue(rows: Table, id: string, now: int) {
    id in rows && Due(rows[id], now) && forall o :: o in rows && o != id && Due(rows[o], now) ==> Earlier(rows[id], rows[o])
  }

  function Claimed(row: JobRow, now: int): JobRow {
    row.(status := Running, attempts := row.attempts + 1, updatedAt := now)
  }

  // ----- outcomes -----

  function Pow2(n: nat): nat {
    if n == 0 then 1 else 2 * Pow2(n - 1)
  }

  function RetryDelay(attempt: nat): nat
    requires attempt >= 1
  {
    RETRY_BASE_DELAY * Pow2(attempt - 1)
  }

  predicate Finished(status: Status) {
    status == Succeeded || status == Failed || status == Skipped
  }

  function Marked(row: JobRow, status: Status, outcome: Option<JobOutcome>, failure: string, next: int, now: int): JobRow {
    row.(status := status, failure := failure, updatedAt := now, nextAttemptAt := next, outcome := outcome)
  }

  /** The row after a failure, from the attempts that were read: another attempt later, or none. */
  function FailedRow(row: JobRow, attempts: nat, failure: string, now: int): JobRow
    requires attempts >= 1
  {
    if attempts < MAX_ATTEMPTS then Marked(row, Retrying, None, failure, now + RetryDelay(attempts), now)
    else Marked(row, Failed, None, failure, 0, now)
  }

  /** A failed job is tried again after 5 and then after 10 seconds, and then given up. */
  lemma FailureSchedule(row: JobRow, failure: string, now: int)
    requires row.attempts >= 1
    ensures var next := FailedRow(row, row.attempts, failure, now);
            && (row.attempts == 1 ==> next.status == Retrying && next.nextAttemptAt == now + 5_000_000_000)
            && (row.attempts == 2 ==> next.status == Retrying && next.nextAttemptAt == now + 10_000_000_000)
            && (row.attempts >= 3 ==> next.status == Failed && next.nextAttemptAt == 0)
            && next.attempts == row.attempts && next.outcome == None && next.job == row.job
  {
    assert Pow2(0) == 1 && Pow2(1) == 2;
  }

  const INTERRUPTED := "worker interrupted before completion"

  function Recovered(row: JobRow, now: int): JobRow {
    if row.status == Running then row.(status := Waiting, failure := INTERRUPTED, updatedAt := now) else row
  }

  function AllRecovered(rows: Table, now: int): Table {
    map id | id in rows :: Recovered(rows[id], now)
  }

  predicate Retriable(row: JobRow) {
    row.status == Failed && row.outcome != Some(OutcomeConflict)
  }

  function Requeued(row: JobRow, now: int): JobRow {
    row.(status := Waiting, attempts := 0, failure := "", outcome := None, updatedAt := now, nextAttemptAt := now)
  }

  // ----- steps -----

  /** What the worker read before it writes a failure. */
  datatype Reading = Reading(id: string, attempts: nat)

  /** The durable rows, and what live calls remember: `retrying` maps each retry request that found
      its job retriable to that job; the only worker has at most one failure to write. */
  datatype Store = Store(rows: Table, retrying: map<nat, string>, reading: Option<Reading>)

  const EMPTY := Store(map[], map[], None)

  datatype Step =
    | Enqueue(job: Job, scope: string, event: string)
    | ClaimNext(id: string)
    | ClaimById(id: string)
    | ReadAttempts(id: string)
    | Fail(failure: string)
    | FailLost
    | Finish(id: string, status: Status, outcome: Option<JobOutcome>, failure: string)
    | Recover
    | ReadRetry(request: nat, id: string)
    | Retry(request: nat)
    | RetryLost(request: nat)
    | Crash

  function Without<K, V>(m: map<K, V>, k: K): map<K, V> {
    map x | x in m && x != k :: m[x]
  }

  /** The update of a retry looks at the status only, whatever the outcome is by then. */
  function AfterRetry(rows: Table, id: string, now: int): Table {
    if id in rows && rows[id].status == Failed then rows[id := Requeued(rows[id], now)] else rows
  }

  /** Requests of other goroutines: they come between any two statements. */
  ghost predicate RequestStep(s: Store, s': Store, step: Step, now: int) {
    match step
    case Enqueue(job, scope, event) =>
      job.id !in s.rows && Supported(job) && s' == s.(rows := s.rows[job.id := NewRow(job, scope, event, now)])
    case ReadRetry(request, id) =>
      id in s.rows && Retriable(s.rows[id]) && request !in s.retrying && s' == s.(retrying := s.retrying[request := id])
    case Retry(request) =>
      && request in s.retrying
      && s' == s.(rows := AfterRetry(s.rows, s.retrying[request], now), retrying := Without(s.retrying, request))
    case RetryLost(request) => request in s.retrying && s' == s.(retrying := Without(s.retrying, request))
    case _ => false
  }

  /** The worker, one goroutine, and the start and end of processes. */
  ghost predicate WorkerStep(s: Store, s': Store, step: Step, now: int) {
    match step
    case ClaimNext(id) => s.reading == None && IsOldestDue(s.rows, id, now) && s' == s.(rows := s.rows[id := Claimed(s.rows[id], now)])
    case ClaimById(id) =>
      s.reading == None && id in s.rows && s.rows[id].status == Waiting && s' == s.(rows := s.rows[id := Claimed(s.rows[id], now)])
    case ReadAttempts(id) =>
      && s.reading == None && id in s.rows && s.rows[id].status == Running
      && s' == s.(reading := Some(Reading(id, s.rows[id].attempts)))
    case Fail(failure) =>
      && s.reading.Some? && s.reading.value.attempts >= 1
      && var r := s.reading.value;
         s' == s.(reading := None,
                  rows := if r.id in s.rows && s.rows[r.id].status == Running
                          then s.rows[r.id := FailedRow(s.rows[r.id], r.attempts, failure, now)] else s.rows)
    case FailLost => s' == s.(reading := None)
    case Finish(id, status, outcome, failure) =>
      && s.reading == None && id in s.rows && s.rows[id].status == Running && Finished(status)
      && s' == s.(rows := s.rows[id := Marked(s.rows[id], status, outcome, failure, 0, now)])
    case Recover => s.reading == None && s' == s.(rows := AllRecovered(s.rows, now))
    case Crash => s' == s.(retrying := map[], reading := None)
    case _ => false
  }

  ghost predicate JobStep(s: Store, s': Store, step: Step, now: int) {
    RequestStep(s, s', step, now) || WorkerStep(s, s', step, now)
  }

  /** What can happen from a store on. */
  ghost predicate IsFuture(start: Store, stores: seq<Store>, steps: seq<Step>, clock: seq<int>) {
    && |stores| == |steps| + 1 && |clock| == |steps| && stores[0] == start
    && forall i :: 0 <= i < |steps| ==> JobStep(stores[i], stores[i + 1], steps[i], clock[i])
  }

  /** A history of the table, from an empty one, across any number of processes. */
  ghost predicate IsHistory(stores: seq<Store>, steps: seq<Step>, clock: seq<int>) {
    IsFuture(EMPTY, stores, steps, clock)
  }

  // ----- what every store keeps -----

  /** A running row counts its attempt; a retrying one failed once or twice and waits its full delay. */
  predicate RowOk(id: string, row: JobRow) {
    && row.job.id == id
    && (row.status == Running ==> row.attempts >= 1)
    && (row.status == Retrying ==> 1 <= row.attempts < MAX_ATTEMPTS && row.nextAttemptAt == row.updatedAt + RetryDelay(row.attempts))
  }

  ghost predicate TableOk(rows: Table) {
    forall id :: id in rows ==> RowOk(id, rows[id])
  }

  /** What was read about a running job is still so: only the worker touches running rows. */
  ghost predicate ReadingOk(s: Store) {
    s.reading.Some? ==>
      s.reading.value.id in s.rows && s.rows[s.reading.value.id].status == Running
      && s.rows[s.reading.value.id].attempts == s.reading.value.attempts >= 1
  }

  ghost predicate StoreOk(s: Store) {
    TableOk(s.rows) && ReadingOk(s) && forall r :: r in s.retrying ==> s.retrying[r] in s.rows
  }

  /** Requests never change a running row. */
  lemma RequestsLeaveRunning(s: Store, s': Store, step: Step, now: int, id: string)
    requires RequestStep(s, s', step, now) && id in s.rows && s.rows[id].status == Running
    ensures id in s'.rows && s'.rows[id] == s.rows[id] && s'.reading == s.reading
  {
    hide NewRow;
  }

  lemma RequestKeepsStore(s: Store, s': Store, step: Step, now: int)
    requires StoreOk(s) && RequestStep(s, s', step, now)
    ensures StoreOk(s')
  {
    hide RetryDelay;
    forall id | id in s'.rows
      ensures RowOk(id, s'.rows[id])
    {
      if id in s.rows {
        assert RowOk(id, s.rows[id]);
      }
    }
    if s.reading.Some? {
      RequestsLeaveRunning(s, s', step, now, s.reading.value.id);
    }
  }

  /** The shift in the delay of a failure is always in range. */
  lemma WorkerKeepsStore(s: Store, s': Store, step: Step, now: int)
    requires StoreOk(s) && WorkerStep(s, s', step, now)
    ensures StoreOk(s')
  {
    hide Earlier, Due, RetryDelay;
    forall id | id in s'.rows
      ensures RowOk(id, s'.rows[id])
    {
      assert id in s.rows && RowOk(id, s.rows[id]);
    }
  }

  lemma {:induction false} HistoryStore(stores: seq<Store>, steps: seq<Step>, clock: seq<int>, n: nat)
    requires IsHistory(stores, steps, clock) && n < |stores|
    ensures StoreOk(stores[n])
  {
    hide RequestStep, WorkerStep, StoreOk;
    if n == 0 {
      NothingStored();
    } else {
      HistoryStore(stores, steps, clock, n - 1);
      assert JobStep(stores[n - 1], stores[n - 1 + 1], steps[n - 1], clock[n - 1]);
      if RequestStep(stores[n - 1], stores[n], steps[n - 1], clock[n - 1]) {
        RequestKeepsStore(stores[n - 1], stores[n], steps[n - 1], clock[n - 1]);
      } else {
        WorkerKeepsStore(stores[n - 1], stores[n], steps[n - 1], clock[n - 1]);
      }
    }
  }

  lemma NothingStored()
    ensures StoreOk(EMPTY)
  {
  }
}
